/** What every registry operation keeps. */
module RegistrySafety {
  import opened Octets
  import opened Overlap
  import opened Registry
  import Wire
  import Address

  /**
    Everything ever admitted: registration keys, (worker, plan) pairs, and the plan prepared under
    each identity.
    */
  datatype History = History(keys: set<Key>, pairs: set<(nat, nat)>, prepared: map<Identity, Plan>)

  /** A candidate with the deadlines frozen when it was prepared. */
  datatype Plan = Plan(candidate: Candidate, validity: Validity)

  predicate Held(s: Slot) {
    s.state == Published || s.state == Retained
  }

  /** The slot's bytes are those of the candidate, entry by entry, under the frozen deadlines. */
  ghost predicate Carries(s: Slot, p: Plan) {
    var entries := p.candidate.entries;
    && s.entries == StoreFrom(0, entries)
    && |Content(entries)| <= |s.bytes| && s.bytes[..|Content(entries)|] == Content(entries)
    && s.validity == p.validity
  }

  /** Published and retained plans belong to the record of their address; at most one is published. */
  ghost predicate TableSound(records: map<byte, Record>, slots: seq<Slot>) {
    && (forall j :: 0 <= j < |slots| && Held(slots[j]) ==>
          slots[j].identity.key.address in records &&
          records[slots[j].identity.key.address].registered.key == slots[j].identity.key)
    && (forall j :: 0 <= j < |slots| && slots[j].state == Published ==>
          slots[j].identity.key.address in records && records[slots[j].identity.key.address].published == j)
    && (forall a :: a in records ==> RecordSound(records[a], a, slots))
  }

  ghost predicate RecordSound(rec: Record, a: byte, slots: seq<Slot>) {
    && rec.registered.key.address == a
    && (rec.published == -1 ||
        (0 <= rec.published < |slots| && slots[rec.published].state == Published &&
         slots[rec.published].identity.key == rec.registered.key))
  }

  ghost predicate KeysSound(top: nat, subscribers: map<nat, Subscriber>, records: map<byte, Record>, keys: set<Key>) {
    && (forall k :: k in keys ==>
          k.subscriber <= top && (k.subscriber in subscribers ==> k.epoch <= subscribers[k.subscriber].epochHigh))
    && (forall id :: id in subscribers ==> id <= top)
    && (forall a :: a in records ==> records[a].registered.key in keys)
  }

  ghost predicate PairsSound(worker: nat, workerTop: nat, planTop: nat, h: History) {
    && worker == workerTop
    && (forall p :: p in h.pairs ==> p.0 <= workerTop && (p.0 == workerTop ==> p.1 <= planTop))
    && (forall id :: id in h.prepared ==> (id.worker, id.plan) in h.pairs && PreparedSound(h, id))
  }

  /** What admission leaves of an entry: it answers for the plan's address with a well-formed reply. */
  ghost predicate EntryGood(e: Entry, address: byte) {
    && e.destination == address && e.phase == PhaseResponse && e.requestLength == |e.request|
    && exists data: seq<byte> :: |data| <= Wire.MAX_NATIVE_LENGTH && e.response == Wire.Response(data)
  }

  ghost predicate PreparedSound(h: History, id: Identity)
    requires id in h.prepared
  {
    var c := h.prepared[id].candidate;
    && c.identity == id && !SomeOverlap(c.entries)
    && forall i :: 0 <= i < |c.entries| ==> EntryGood(c.entries[i], id.key.address)
  }

  predicate Filled(s: Slot) {
    Held(s) || s.state == Writing
  }

  ghost predicate SlotsSound(slots: seq<Slot>, h: History) {
    forall j :: 0 <= j < |slots| && Filled(slots[j]) ==>
      slots[j].identity in h.prepared && Carries(slots[j], h.prepared[slots[j].identity])
  }

  ghost predicate Inv(r: Registry, h: History) {
    && TableSound(r.records, r.slots)
    && KeysSound(r.subscriberTop, r.subscribers, r.records, h.keys)
    && PairsSound(r.worker, r.workerTop, r.planTop, h)
    && SlotsSound(r.slots, h)
  }

  // ---- How a slot may change under a worker that might still read it ----

  /**
    A held slot keeps its incarnation, identity, deadlines, bytes and pin, and can only move from
    published to retained, unless it is let out to reclaimable; nothing reuses an incarnation.
    */
  ghost predicate SlotEvolves(a: Slot, b: Slot, out: bool) {
    && a.incarnation <= b.incarnation
    && (Held(a) ==>
          if a.incarnation < b.incarnation then out
          else
            && b == a.(state := b.state, reason := b.reason, pinned := b.pinned)
            && (if Held(b) then b.pinned == a.pinned && (a.state == Retained ==> b.state == Retained)
                else out && b.state == Reclaimable))
    && (a.state == Reclaimable ==> b == a || a.incarnation < b.incarnation)
  }

  ghost predicate Evolves(a: seq<Slot>, b: seq<Slot>, out: set<nat>) {
    |a| == |b| && forall j :: 0 <= j < |a| ==> SlotEvolves(a[j], b[j], j in out)
  }

  lemma EvolvesChains(a: seq<Slot>, b: seq<Slot>, c: seq<Slot>, out: set<nat>)
    requires Evolves(a, b, {}) && Evolves(b, c, out)
    ensures Evolves(a, c, out)
  {
    forall j | 0 <= j < |a|
      ensures SlotEvolves(a[j], c[j], j in out)
    {
      assert SlotEvolves(a[j], b[j], j in {}) && SlotEvolves(b[j], c[j], j in out);
    }
  }

  // ---- Retirement ----

  /** The slot is unchanged, lost before any worker saw it, or moved towards retained. */
  ghost predicate SlotRetires(a: Slot, b: Slot) {
    && SlotEvolves(a, b, false)
    && (Filled(b) ==> Filled(a) && b == a.(state := b.state, reason := b.reason))
  }

  /** A retirement touches slots and the published marks of records, and nothing else. */
  ghost predicate OnlyRetired(r: Registry, t: Registry) {
    t == r.(slots := t.slots, records := t.records) && SameRecords(r.records, t.records) && AllRetire(r.slots, t.slots)
  }

  ghost predicate AllRetire(a: seq<Slot>, b: seq<Slot>) {
    |a| == |b| && forall j :: 0 <= j < |a| ==> SlotRetires(a[j], b[j])
  }

  ghost predicate SameRecords(a: map<byte, Record>, b: map<byte, Record>) {
    a.Keys == b.Keys && forall k :: k in a ==> b[k] == a[k].(published := b[k].published)
  }

  lemma AllRetireEvolves(a: seq<Slot>, b: seq<Slot>)
    requires AllRetire(a, b)
    ensures Evolves(a, b, {})
  {
    hide SlotEvolves;
    forall j | 0 <= j < |a|
      ensures SlotEvolves(a[j], b[j], j in {})
    {
      assert SlotRetires(a[j], b[j]);
    }
  }

  lemma RetiredSlot(s: Slot, reason: Reason)
    ensures SlotRetires(s, Retired(s, reason)) && SlotRetires(s, s)
  {
  }

  lemma RetireSlotOnly(r: Registry, j: nat, reason: Reason)
    requires j < |r.slots|
    ensures OnlyRetired(r, RetireSlot(r, j, reason)) && OnlyRetired(r, r)
  {
    hide SlotRetires, Retired;
    forall k | 0 <= k < |r.slots|
      ensures SlotRetires(r.slots[k], r.slots[k]) && SlotRetires(r.slots[k], Retired(r.slots[k], reason))
    {
      RetiredSlot(r.slots[k], reason);
    }
  }

  lemma RetireSlotTable(r: Registry, j: nat, reason: Reason)
    requires j < |r.slots| && TableSound(r.records, r.slots)
    ensures TableSound(RetireSlot(r, j, reason).records, RetireSlot(r, j, reason).slots)
  {
    var t := RetireSlot(r, j, reason);
    forall a | a in t.records
      ensures RecordSound(t.records[a], a, t.slots)
    {
      assert RecordSound(r.records[a], a, r.slots);
    }
  }

  lemma OnlyRetiredChains(r: Registry, s: Registry, t: Registry)
    requires OnlyRetired(r, s) && OnlyRetired(s, t)
    ensures OnlyRetired(r, t)
  {
    hide SlotRetires;
    forall j | 0 <= j < |r.slots|
      ensures SlotRetires(r.slots[j], t.slots[j])
    {
      RetiresChains(r.slots[j], s.slots[j], t.slots[j]);
    }
  }

  lemma RetiresChains(a: Slot, b: Slot, c: Slot)
    requires SlotRetires(a, b) && SlotRetires(b, c)
    ensures SlotRetires(a, c)
  {
  }

  /** Beyond the table itself, a retirement cannot break anything. */
  lemma OnlyRetiredKeepsInv(r: Registry, t: Registry, h: History)
    requires Inv(r, h) && OnlyRetired(r, t) && TableSound(t.records, t.slots)
    ensures Inv(t, h)
  {
    hide TableSound, PairsSound, SlotEvolves;
    forall j | 0 <= j < |t.slots| && Filled(t.slots[j])
      ensures t.slots[j].identity in h.prepared && Carries(t.slots[j], h.prepared[t.slots[j].identity])
    {
      assert SlotRetires(r.slots[j], t.slots[j]);
    }
  }

  lemma {:induction false} RetireWhereSound(r: Registry, h: History, reason: Reason, c: Choice, j: nat)
    requires j <= |r.slots| && Inv(r, h)
    ensures Inv(RetireWhere(r, reason, c, j), h) && OnlyRetired(r, RetireWhere(r, reason, c, j))
  {
    RetireWhereOnly(r, reason, c, j);
    RetireWhereTable(r, reason, c, j);
    OnlyRetiredKeepsInv(r, RetireWhere(r, reason, c, j), h);
  }

  lemma {:induction false} RetireWhereTable(r: Registry, reason: Reason, c: Choice, j: nat)
    requires j <= |r.slots| && TableSound(r.records, r.slots)
    ensures TableSound(RetireWhere(r, reason, c, j).records, RetireWhere(r, reason, c, j).slots)
    decreases |r.slots| - j
  {
    hide TableSound, RetireSlot, Picked;
    if j < |r.slots| {
      RetireSlotTable(r, j, reason);
      RetireSlotLength(r, j, reason);
      RetireWhereTable(if Picked(c, r.slots[j]) then RetireSlot(r, j, reason) else r, reason, c, j + 1);
    }
  }

  lemma {:induction false} RetireWhereOnly(r: Registry, reason: Reason, c: Choice, j: nat)
    requires j <= |r.slots|
    ensures OnlyRetired(r, RetireWhere(r, reason, c, j))
    decreases |r.slots| - j
  {
    hide OnlyRetired, RetireSlot, Picked;
    if j == |r.slots| {
      UnchangedIsRetired(r);
    } else {
      var next := if Picked(c, r.slots[j]) then RetireSlot(r, j, reason) else r;
      RetireSlotOnly(r, j, reason);
      RetireSlotLength(r, j, reason);
      RetireWhereOnly(next, reason, c, j + 1);
      OnlyRetiredChains(r, next, RetireWhere(r, reason, c, j));
    }
  }

  lemma UnchangedIsRetired(r: Registry)
    ensures OnlyRetired(r, r)
  {
  }

  lemma RetireSlotLength(r: Registry, j: nat, reason: Reason)
    requires j < |r.slots|
    ensures |RetireSlot(r, j, reason).slots| == |r.slots|
  {
  }

  // ---- Registrations ----

  /** A host step that lets no slot out. */
  ghost predicate Keeps(r: Registry, t: Registry, h: History) {
    Inv(t, h) && Evolves(r.slots, t.slots, {})
  }

  lemma KeepsChains(r: Registry, s: Registry, t: Registry, h: History)
    requires Keeps(r, s, h) && Keeps(s, t, h)
    ensures Keeps(r, t, h)
  {
    hide Inv, Evolves;
    EvolvesChains(r.slots, s.slots, t.slots, {});
  }

  lemma SameSlotsEvolve(slots: seq<Slot>)
    ensures Evolves(slots, slots, {})
  {
  }

  lemma RetireWhereKeeps(r: Registry, h: History, reason: Reason, c: Choice)
    requires Inv(r, h)
    ensures Keeps(r, RetireWhere(r, reason, c, 0), h) && OnlyRetired(r, RetireWhere(r, reason, c, 0))
  {
    hide Inv, Evolves, AllRetire;
    RetireWhereSound(r, h, reason, c, 0);
    AllRetireEvolves(r.slots, RetireWhere(r, reason, c, 0).slots);
  }

  /** Freeing an address with no held plan leaves the table sound. */
  lemma SettleTable(r: Registry, key: Key)
    requires TableSound(r.records, r.slots)
    ensures TableSound(Settle(r, key).records, Settle(r, key).slots)
  {
    hide ForgetRegistration;
    var t := Settle(r, key);
    forall a | a in t.records
      ensures RecordSound(t.records[a], a, t.slots)
    {
      assert RecordSound(r.records[a], a, r.slots);
    }
  }

  lemma SettleKeeps(r: Registry, h: History, key: Key)
    requires Inv(r, h)
    ensures Keeps(r, Settle(r, key), h)
  {
    hide TableSound, PairsSound, SlotsSound, Evolves, StillHeld;
    SettleTable(r, key);
    SameSlotsEvolve(r.slots);
  }

  /** Any change of the lease, source or activity of one record. */
  lemma RecordKeeps(r: Registry, h: History, a: byte, rec: Record)
    requires Inv(r, h) && a in r.records
    requires rec.registered == r.records[a].registered && rec.published == r.records[a].published
    ensures Keeps(r, r.(records := r.records[a := rec]), h)
  {
    hide PairsSound, SlotsSound, Evolves;
    SameSlotsEvolve(r.slots);
    var t := r.(records := r.records[a := rec]);
    forall b | b in t.records
      ensures RecordSound(t.records[b], b, t.slots)
    {
      assert RecordSound(r.records[b], b, r.slots);
    }
  }

  lemma RetireKeeps(r: Registry, h: History, address: byte, reason: Reason)
    requires Inv(r, h) && address in r.records
    ensures Keeps(r, Retire(r, address, reason), h)
  {
    hide Inv, Evolves, OnlyRetired, Settle, RetireWhere;
    var key := r.records[address].registered.key;
    var retiring := r.(records := r.records[address := r.records[address].(active := false)]);
    RecordKeeps(r, h, address, retiring.records[address]);
    RetireWhereKeeps(retiring, h, reason, OfKey(key));
    var retired := RetireWhere(retiring, reason, OfKey(key), 0);
    SettleKeeps(retired, h, key);
    KeepsChains(r, retiring, retired, h);
    KeepsChains(r, retired, Settle(retired, key), h);
  }

  lemma {:induction false} SweepKeeps(r: Registry, h: History, s: Sweep, reason: Reason, address: nat)
    requires address <= 256 && Inv(r, h)
    ensures Keeps(r, SweepRecords(r, s, reason, address), h)
    decreases 256 - address
  {
    hide Inv, Evolves, Retire;
    SameSlotsEvolve(r.slots);
    if address < 256 {
      var next := if address in r.records && Swept(s, r.records[address]) then Retire(r, address, reason) else r;
      if address in r.records { RetireKeeps(r, h, address, reason); }
      assert Keeps(r, next, h);
      SweepKeeps(next, h, s, reason, address + 1);
      KeepsChains(r, next, SweepRecords(next, s, reason, address + 1), h);
    }
  }

  lemma ObserveClockKeeps(r: Registry, h: History, now: Reading)
    requires Inv(r, h)
    ensures Keeps(r, ObserveClock(r, now), h)
    ensures ObserveClock(r, now) == r.(clock := r.clock.Observe(now), slots := ObserveClock(r, now).slots, records := ObserveClock(r, now).records)
  {
    hide Evolves, TableSound, KeysSound, PairsSound, SlotsSound, SameRecords, AllRetire;
    SameSlotsEvolve(r.slots);
    RetireWhereKeeps(r.(clock := r.clock.Observe(now)), h, Revoked, Every);
  }

  lemma OpenSubscriberKeeps(r: Registry, h: History)
    requires Inv(r, h)
    ensures Keeps(r, OpenSubscriber(r), h)
  {
    hide Evolves, TableSound, PairsSound, SlotsSound;
    SameSlotsEvolve(r.slots);
  }

  lemma UnregisterKeeps(r: Registry, h: History, key: Key)
    requires Inv(r, h)
    ensures Keeps(r, Unregister(r, key), h)
  {
    hide Evolves, Inv, Retire;
    SameSlotsEvolve(r.slots);
    if HasRecord(r, key) { RetireKeeps(r, h, key.address, Revoked); }
  }

  /** Closing a subscriber forgets no epoch while it has registrations, and its number never returns. */
  lemma DisconnectKeeps(r: Registry, h: History, id: nat)
    requires Inv(r, h)
    ensures Keeps(r, Disconnect(r, id), h)
  {
    hide Evolves, TableSound, PairsSound, SlotsSound, SweepRecords;
    SameSlotsEvolve(r.slots);
    if id in r.subscribers {
      var closed := r.(subscribers := r.subscribers[id := r.subscribers[id].(open := false)]);
      SweepKeeps(closed, h, OfSubscriber(id), Revoked, 0);
    }
  }

  lemma ConflictKeeps(r: Registry, h: History, address: byte)
    requires Inv(r, h)
    ensures Keeps(r, MarkConflict(r, address), h) && Keeps(r, ClearConflict(r, address), h)
  {
    hide Evolves, TableSound, KeysSound, PairsSound, SlotsSound, RetireWhere, OnlyRetired;
    SameSlotsEvolve(r.slots);
    RetireWhereKeeps(r.(conflicts := r.conflicts + {address}), h, Revoked, AtAddress(address));
  }

  lemma RenewKeeps(r: Registry, h: History, key: Key, expiry: nat, now: Reading)
    requires Inv(r, h)
    ensures Keeps(r, Renew(r, key, expiry, now), h)
  {
    hide Evolves, Inv, ObserveClock, LeaseOk;
    ObserveClockKeeps(r, h, now);
    var seen := ObserveClock(r, now);
    if HasRecord(seen, key) {
      RecordKeeps(seen, h, key.address, seen.records[key.address].(leaseExpiry := expiry));
      KeepsChains(r, seen, seen.(records := seen.records[key.address := seen.records[key.address].(leaseExpiry := expiry)]), h);
    }
  }

  lemma AdvanceSourceKeeps(r: Registry, h: History, key: Key, source: nat, expiry: nat, now: Reading)
    requires Inv(r, h)
    ensures Keeps(r, AdvanceSource(r, key, source, expiry, now), h)
  {
    hide Evolves, Inv, ObserveClock, LeaseOk, RetireWhere, OnlyRetired;
    ObserveClockKeeps(r, h, now);
    var seen := ObserveClock(r, now);
    if HasRecord(seen, key) {
      var rec := seen.records[key.address].(source := source, sourceLease := expiry);
      var moved := seen.(records := seen.records[key.address := rec]);
      RecordKeeps(seen, h, key.address, rec);
      RetireWhereKeeps(moved, h, Revoked, OfKey(key));
      KeepsChains(r, seen, moved, h);
      KeepsChains(r, moved, RetireWhere(moved, Revoked, OfKey(key), 0), h);
    }
  }

  lemma ExpireKeeps(r: Registry, h: History, now: Reading)
    requires Inv(r, h)
    ensures Keeps(r, ExpireDue(r, now), h)
  {
    hide Evolves, Inv, ObserveClock, RetireWhere, SweepRecords, OnlyRetired;
    ObserveClockKeeps(r, h, now);
    var seen := ObserveClock(r, now);
    RetireWhereKeeps(seen, h, Expired, DueAt(now));
    var due := RetireWhere(seen, Expired, DueAt(now), 0);
    SweepKeeps(due, h, LapsedAt(now), Expired, 0);
    KeepsChains(r, seen, due, h);
    KeepsChains(r, due, SweepRecords(due, LapsedAt(now), Expired, 0), h);
  }

  /** A new key joins the history, and it was not there before. */
  lemma RegisterSound(r: Registry, h: History, c: Registration, now: Reading)
    requires Inv(r, h)
    ensures RegisterSucceeds(r, c, now) ==>
              c.key !in h.keys && Keeps(r, Register(r, c, now), h.(keys := h.keys + {c.key}))
    ensures !RegisterSucceeds(r, c, now) ==> Keeps(r, Register(r, c, now), h)
  {
    hide Evolves, TableSound, PairsSound, SlotsSound, LeaseOk, Address.IsTarget, ObserveClock;
    ObserveClockKeeps(r, h, now);
    var seen := ObserveClock(r, now);
    if RegisterSucceeds(r, c, now) {
      AdmitTable(seen, c);
      MorePrepared(seen, h, c.key);
    }
  }

  predicate RegisterSucceeds(r: Registry, c: Registration, now: Reading) {
    !ObserveClock(r, now).clock.closed && Admissible(ObserveClock(r, now), c, now)
  }

  lemma AdmitTable(r: Registry, c: Registration)
    requires TableSound(r.records, r.slots) && c.key.address !in r.records && c.key.subscriber in r.subscribers
    ensures TableSound(Admit(r, c).records, r.slots)
  {
    var t := Admit(r, c);
    forall b | b in t.records
      ensures RecordSound(t.records[b], b, t.slots)
    {
      if b in r.records { assert RecordSound(r.records[b], b, r.slots); }
    }
  }

  /** Keys play no part in what the pool and the plans keep. */
  lemma MorePrepared(r: Registry, h: History, key: Key)
    requires SlotsSound(r.slots, h) && PairsSound(r.worker, r.workerTop, r.planTop, h)
    ensures SlotsSound(r.slots, h.(keys := h.keys + {key})) && PairsSound(r.worker, r.workerTop, r.planTop, h.(keys := h.keys + {key}))
  {
    hide Carries, SomeOverlap, EntryGood;
    var t := h.(keys := h.keys + {key});
    forall id | id in t.prepared
      ensures PreparedSound(t, id)
    {
      assert PreparedSound(h, id);
    }
  }

  // ---- Workers ----

  /** Plan numbers restart only under a worker number never used before. */
  lemma BindKeeps(r: Registry, h: History, worker: nat, stream: nat)
    requires Inv(r, h)
    ensures Keeps(r, BindWorker(r, worker, stream), h)
  {
    hide Evolves, SlotsSound, KeysSound, SlotRetires, RetireWhere, PreparedSound;
    SameSlotsEvolve(r.slots);
    RetireWhereKeeps(r, h, Revoked, Every);
    RestartTable(RetireWhere(r, Revoked, Every, 0), h);
  }

  function Restarted(records: map<byte, Record>): map<byte, Record> {
    map a | a in records :: records[a].(publishTop := 0)
  }

  lemma RestartTable(r: Registry, h: History)
    requires TableSound(r.records, r.slots) && KeysSound(r.subscriberTop, r.subscribers, r.records, h.keys)
    ensures TableSound(Restarted(r.records), r.slots) && KeysSound(r.subscriberTop, r.subscribers, Restarted(r.records), h.keys)
  {
    forall a | a in r.records
      ensures RecordSound(Restarted(r.records)[a], a, r.slots)
    {
      assert RecordSound(r.records[a], a, r.slots);
    }
  }

  /** A held slot of no record's published mark can leave the held states. */
  lemma LetOutKeeps(r: Registry, h: History, j: nat)
    requires Inv(r, h) && j < |r.slots| && r.slots[j].state == Retained
    ensures Inv(LetOut(r, j), h) && Evolves(r.slots, LetOut(r, j).slots, {j})
  {
    hide PairsSound, Carries;
    var t := LetOut(r, j);
    forall a | a in t.records
      ensures RecordSound(t.records[a], a, t.slots)
    {
      assert RecordSound(r.records[a], a, r.slots);
    }
  }

  function LetOut(r: Registry, j: nat): Registry
    requires j < |r.slots|
  {
    SetSlot(r, j, r.slots[j].(pinned := false, state := Reclaimable))
  }

  lemma EvolvesInto(a: seq<Slot>, b: seq<Slot>, c: seq<Slot>, early: set<nat>, late: set<nat>)
    requires Evolves(a, b, early) && Evolves(b, c, late)
    ensures Evolves(a, c, early + late)
  {
    hide SlotEvolves;
    forall j | 0 <= j < |a|
      ensures SlotEvolves(a[j], c[j], j in early + late)
    {
      assert SlotEvolves(a[j], b[j], j in early) && SlotEvolves(b[j], c[j], j in late);
      SlotChains(a[j], b[j], c[j], j in early, j in late);
    }
  }

  lemma SlotChains(a: Slot, b: Slot, c: Slot, early: bool, late: bool)
    requires SlotEvolves(a, b, early) && SlotEvolves(b, c, late)
    ensures SlotEvolves(a, c, early || late)
  {
  }

  function ReclaimOne(r: Registry, j: nat): Registry
    requires j < |r.slots|
  {
    Settle(LetOut(RetireSlot(r, j, Revoked), j), r.slots[j].identity.key)
  }

  lemma ReclaimOneKeeps(r: Registry, h: History, j: nat)
    requires Inv(r, h) && j < |r.slots| && Held(r.slots[j])
    ensures Inv(ReclaimOne(r, j), h) && Evolves(r.slots, ReclaimOne(r, j).slots, {j})
    ensures |ReclaimOne(r, j).slots| == |r.slots|
  {
    hide Inv, Evolves, OnlyRetired, Settle;
    var retired := RetireSlot(r, j, Revoked);
    var out := LetOut(retired, j);
    RetireSlotKeeps(r, h, j, Revoked);
    LetOutKeeps(retired, h, j);
    SettleKeeps(out, h, r.slots[j].identity.key);
    EvolvesChains(r.slots, retired.slots, out.slots, {j});
    EvolvesInto(r.slots, out.slots, ReclaimOne(r, j).slots, {j}, {});
    assert {j} + {} == {j};
    EvolvesLength(r.slots, ReclaimOne(r, j).slots, {j});
  }

  lemma EvolvesLength(a: seq<Slot>, b: seq<Slot>, out: set<nat>)
    requires Evolves(a, b, out)
    ensures |a| == |b|
  {
  }

  lemma RetireSlotKeeps(r: Registry, h: History, j: nat, reason: Reason)
    requires Inv(r, h) && j < |r.slots|
    ensures Keeps(r, RetireSlot(r, j, reason), h) && OnlyRetired(r, RetireSlot(r, j, reason))
  {
    hide TableSound, AllRetire, KeysSound, PairsSound, SlotsSound, Evolves, RetireSlot;
    RetireSlotOnly(r, j, reason);
    RetireSlotTable(r, j, reason);
    OnlyRetiredKeepsInv(r, RetireSlot(r, j, reason), h);
    AllRetireEvolves(r.slots, RetireSlot(r, j, reason).slots);
  }

  lemma {:induction false} ReclaimWorkerSound(r: Registry, h: History, worker: nat, j: nat) returns (out: set<nat>)
    requires Inv(r, h) && j <= |r.slots|
    ensures Inv(ReclaimWorker(r, worker, j), h) && Evolves(r.slots, ReclaimWorker(r, worker, j).slots, out)
    ensures forall k :: k in out ==> j <= k < |r.slots| && r.slots[k].identity.worker == worker
    decreases |r.slots| - j
  {
    hide Inv, Evolves, Settle, RetireSlot;
    SameSlotsEvolve(r.slots);
    out := {};
    if j < |r.slots| {
      var s := r.slots[j];
      if (s.state != Published && s.state != Retained) || s.identity.worker != worker {
        out := ReclaimWorkerSound(r, h, worker, j + 1);
      } else {
        ReclaimOneKeeps(r, h, j);
        ReclaimOneOthers(r, j);
        var next := ReclaimOne(r, j);
        var late := ReclaimWorkerSound(next, h, worker, j + 1);
        EvolvesInto(r.slots, next.slots, ReclaimWorker(next, worker, j + 1).slots, {j}, late);
        out := {j} + late;
      }
    }
  }

  lemma ReclaimOneOthers(r: Registry, j: nat)
    requires j < |r.slots|
    ensures |ReclaimOne(r, j).slots| == |r.slots|
    ensures forall k :: j < k < |r.slots| ==> ReclaimOne(r, j).slots[k] == r.slots[k]
  {
    hide Retired, ForgetRegistration, StillHeld;
  }

  /** Termination lets out only slots of the worker that ended. */
  lemma TerminateSound(r: Registry, h: History, worker: nat) returns (out: set<nat>)
    requires Inv(r, h)
    ensures Inv(Terminate(r, worker), h) && Evolves(r.slots, Terminate(r, worker).slots, out)
    ensures forall k :: k in out ==> k < |r.slots| && (Held(r.slots[k]) ==> r.slots[k].identity.worker == worker)
  {
    hide Inv, Evolves, RetireWhere, ReclaimWorker, OnlyRetired;
    SameSlotsEvolve(r.slots);
    out := {};
    if worker != 0 && worker <= r.workerTop {
      var loose := r.(workerBound := false);
      UnboundKeeps(r, h);
      RetireWhereKeeps(loose, h, Revoked, StillWriting);
      var unbound := if r.workerBound && r.worker == worker then RetireWhere(loose, Revoked, StillWriting, 0) else r;
      out := ReclaimWorkerSound(unbound, h, worker, 0);
      EvolvesChains(r.slots, unbound.slots, ReclaimWorker(unbound, worker, 0).slots, out);
      HeldIdentities(r.slots, unbound.slots);
    }
  }

  lemma UnboundKeeps(r: Registry, h: History)
    requires Inv(r, h)
    ensures Inv(r.(workerBound := false), h)
  {
    hide TableSound, KeysSound, PairsSound, SlotsSound;
  }

  lemma HeldIdentities(a: seq<Slot>, b: seq<Slot>)
    requires Evolves(a, b, {})
    ensures |a| == |b| && forall j :: 0 <= j < |a| && Held(a[j]) ==> b[j].identity == a[j].identity
  {
    forall j | 0 <= j < |a| && Held(a[j])
      ensures b[j].identity == a[j].identity
    {
      assert SlotEvolves(a[j], b[j], j in {});
    }
  }

  // ---- Plans ----

  /** Replacing a slot no worker may read by another such slot. */
  lemma UnheldKeeps(r: Registry, h: History, j: nat, s: Slot)
    requires Inv(r, h) && j < |r.slots| && !Held(r.slots[j]) && !Filled(s)
    requires r.slots[j].state == Reclaimable ==> s == r.slots[j] || r.slots[j].incarnation < s.incarnation
    requires r.slots[j].incarnation <= s.incarnation
    ensures Keeps(r, SetSlot(r, j, s), h)
  {
    hide PairsSound, Carries;
    var t := SetSlot(r, j, s);
    forall a | a in t.records
      ensures RecordSound(t.records[a], a, t.slots)
    {
      assert RecordSound(r.records[a], a, r.slots);
    }
  }

  lemma AbortKeeps(r: Registry, h: History, ref: SlotRef)
    requires Inv(r, h)
    ensures Keeps(r, Abort(r, ref), h)
  {
    hide Inv, Evolves;
    SameSlotsEvolve(r.slots);
    if Resolves(r.slots, ref) && r.slots[ref.index].state == Writing {
      if r.slots[ref.index].incarnation == MAX64 {
        assert Abort(r, ref) == r;
      } else {
        UnheldKeeps(r, h, ref.index, FreeSlot(r.slots[ref.index]));
      }
    }
  }

  lemma ReclaimKeeps(r: Registry, h: History, ref: SlotRef)
    requires Inv(r, h)
    ensures Keeps(r, Reclaim(r, ref), h)
  {
    hide Inv, Evolves;
    SameSlotsEvolve(r.slots);
    if Resolves(r.slots, ref) && r.slots[ref.index].state == Reclaimable {
      UnheldKeeps(r, h, ref.index, FreeSlot(r.slots[ref.index]));
    }
  }

  /** An accepted acknowledgement lets out exactly the slot it names. */
  lemma AckLetsOut(r: Registry, h: History, ack: Notice)
    requires Inv(r, h)
    ensures Inv(ObserveAck(r, ack), h)
    ensures Evolves(r.slots, ObserveAck(r, ack).slots, if AckAccepted(r, ack) then {ack.slot.index} else {})
  {
    hide Inv, Evolves, Settle;
    SameSlotsEvolve(r.slots);
    if AckAccepted(r, ack) {
      var j := ack.slot.index;
      var out := LetOut(r, j);
      LetOutKeeps(r, h, j);
      assert out == SetSlot(r, j, r.slots[j].(state := Reclaimable));
      SettleKeeps(out, h, r.slots[j].identity.key);
      EvolvesInto(r.slots, out.slots, ObserveAck(r, ack).slots, {j}, {});
      assert {j} + {} == {j};
    }
  }

  function Recorded(h: History, c: Candidate, v: Validity): History {
    h.(pairs := h.pairs + {(c.identity.worker, c.identity.plan)}, prepared := h.prepared[c.identity := Plan(c, v)])
  }

  lemma InstallTable(r: Registry, c: Candidate)
    requires TableSound(r.records, r.slots) && FirstFree(r.slots, 0) < |r.slots| && HasRecord(r, c.identity.key)
    ensures TableSound(r.records, Install(r, c).slots) && Evolves(r.slots, Install(r, c).slots, {})
  {
    hide StoreFrom, Content, FirstFree;
    var j := FirstFree(r.slots, 0);
    assert r.slots[j].state == Free;
    forall a | a in r.records
      ensures RecordSound(r.records[a], a, Install(r, c).slots)
    {
      assert RecordSound(r.records[a], a, r.slots);
    }
  }

  lemma InstallSlots(r: Registry, h: History, c: Candidate)
    requires SlotsSound(r.slots, h) && FirstFree(r.slots, 0) < |r.slots| && HasRecord(r, c.identity.key)
    requires c.identity !in h.prepared
    ensures SlotsSound(Install(r, c).slots, Recorded(h, c, Frozen(r, c.identity, c.planExpiry)))
  {
    hide StoreFrom, Content, FirstFree;
    var content := Content(c.entries);
    assert Overlay(r.slots[FirstFree(r.slots, 0)].bytes, content)[..|content|] == content;
  }

  lemma InstallPairs(r: Registry, h: History, c: Candidate, v: Validity)
    requires PairsSound(r.worker, r.workerTop, r.planTop, h) && CandidateOk(r.limits, c)
    requires c.identity.worker == r.worker && c.identity.plan > r.planTop
    ensures (c.identity.worker, c.identity.plan) !in h.pairs && c.identity !in h.prepared
    ensures PairsSound(r.worker, r.workerTop, c.identity.plan, Recorded(h, c, v))
  {
    hide SomeOverlap, TotalBytes, Address.IsInitiator;
    var t := Recorded(h, c, v);
    forall id | id in t.prepared
      ensures (id.worker, id.plan) in t.pairs && PreparedSound(t, id)
    {
      if id != c.identity { assert PreparedSound(h, id); }
    }
  }

  ghost function PreparedHistory(r: Registry, h: History, c: Candidate, now: Reading): History {
    var seen := ObserveClock(r, now);
    if PrepareSucceeds(r, c, now) then Recorded(h, c, Frozen(seen, c.identity, c.planExpiry)) else h
  }

  /** A prepared plan joins the history under a (worker, plan) pair and an identity never used before. */
  lemma PrepareSound(r: Registry, h: History, c: Candidate, now: Reading)
    requires Inv(r, h)
    ensures PrepareSucceeds(r, c, now) ==> (c.identity.worker, c.identity.plan) !in h.pairs && c.identity !in h.prepared
    ensures Keeps(r, Prepare(r, c, now), PreparedHistory(r, h, c, now))
  {
    hide Evolves, TableSound, KeysSound, PairsSound, SlotsSound, ObserveClock, FirstFree, CandidateOk, LeaseOk, StoreFrom, Content;
    ObserveClockKeeps(r, h, now);
    var seen := ObserveClock(r, now);
    if PrepareSucceeds(r, c, now) {
      InstallPairs(seen, h, c, Frozen(seen, c.identity, c.planExpiry));
      InstallTable(seen, c);
      InstallSlots(seen, h, c);
      EvolvesChains(r.slots, seen.slots, Install(seen, c).slots, {});
    }
  }

  function Promoted(r: Registry, j: nat): Registry
    requires j < |r.slots| && r.slots[j].identity.key.address in r.records
  {
    var s := r.slots[j];
    var a := s.identity.key.address;
    SetSlot(r, j, s.(state := Published)).(records := r.records[a := r.records[a].(published := j, publishTop := s.identity.plan)])
  }

  /** Once its predecessor is retired, a written plan may become the published one. */
  lemma PromotedKeeps(r: Registry, h: History, j: nat)
    requires Inv(r, h) && j < |r.slots| && r.slots[j].state == Writing && HasRecord(r, r.slots[j].identity.key)
    requires r.records[r.slots[j].identity.key.address].published == -1
    ensures Keeps(r, Promoted(r, j), h)
  {
    hide PairsSound, StoreFrom, Content;
    var t := Promoted(r, j);
    forall a | a in t.records
      ensures RecordSound(t.records[a], a, t.slots)
    {
      assert RecordSound(r.records[a], a, r.slots);
    }
  }

  lemma MakeCurrentKeeps(r: Registry, h: History, j: nat)
    requires Inv(r, h) && j < |r.slots| && r.slots[j].state == Writing && HasRecord(r, r.slots[j].identity.key)
    ensures Keeps(r, MakeCurrent(r, j), h)
  {
    hide Evolves, KeysSound, PairsSound, SlotsSound;
    var a := r.slots[j].identity.key.address;
    var p := r.records[a].published;
    assert RecordSound(r.records[a], a, r.slots);
    var retired := if 0 <= p < |r.slots| then RetireSlot(r, p, Superseded) else r;
    if 0 <= p < |r.slots| {
      RetireSlotKeeps(r, h, p, Superseded);
      assert retired.slots[j] == r.slots[j];
    }
    SameSlotsEvolve(r.slots);
    assert Keeps(r, retired, h);
    PromotedKeeps(retired, h, j);
    assert MakeCurrent(r, j) == Promoted(retired, j);
    KeepsChains(r, retired, MakeCurrent(r, j), h);
  }

  lemma PublishKeeps(r: Registry, h: History, ref: SlotRef, now: Reading)
    requires Inv(r, h)
    ensures Keeps(r, Publish(r, ref, now).0, h)
  {
    hide Evolves, Inv, ObserveClock, MakeCurrent;
    ObserveClockKeeps(r, h, now);
    var seen := ObserveClock(r, now);
    SameSlotsEvolve(seen.slots);
    if Resolves(seen.slots, ref) && seen.slots[ref.index].state == Writing {
      var s := seen.slots[ref.index];
      UnheldKeeps(seen, h, ref.index, Discard(s));
      if StillCurrent(seen, s, now) { MakeCurrentKeeps(seen, h, ref.index); }
      KeepsChains(r, seen, Publish(r, ref, now).0, h);
    }
  }

  // ---- Every host step ----

  datatype Op =
    | Open | Claim(c: Registration, now: Reading) | Withdraw(key: Key) | Drop(id: nat) | Restart
    | Conflict(address: byte) | Clear(address: byte) | Extend(key: Key, expiry: nat, now: Reading)
    | Refresh(key: Key, source: nat, expiry: nat, now: Reading) | Expire(now: Reading)
    | Bind(worker: nat, stream: nat) | Write(plan: Candidate, now: Reading) | Cancel(ref: SlotRef)
    | Show(ref: SlotRef, now: Reading) | Recycle(ref: SlotRef)

  ghost function Apply(r: Registry, op: Op): Registry {
    match op
    case Open => OpenSubscriber(r)
    case Claim(c, now) => Register(r, c, now)
    case Withdraw(key) => Unregister(r, key)
    case Drop(id) => Disconnect(r, id)
    case Restart => Reset(r)
    case Conflict(address) => MarkConflict(r, address)
    case Clear(address) => ClearConflict(r, address)
    case Extend(key, expiry, now) => Renew(r, key, expiry, now)
    case Refresh(key, source, expiry, now) => AdvanceSource(r, key, source, expiry, now)
    case Expire(now) => ExpireDue(r, now)
    case Bind(worker, stream) => BindWorker(r, worker, stream)
    case Write(plan, now) => Prepare(r, plan, now)
    case Cancel(ref) => Abort(r, ref)
    case Show(ref, now) => Publish(r, ref, now).0
    case Recycle(ref) => Reclaim(r, ref)
  }

  ghost function Remember(r: Registry, h: History, op: Op): History {
    match op
    case Claim(c, now) => if RegisterSucceeds(r, c, now) then h.(keys := h.keys + {c.key}) else h
    case Write(plan, now) => PreparedHistory(r, h, plan, now)
    case _ => h
  }

  lemma ApplySound(r: Registry, h: History, op: Op)
    requires Inv(r, h)
    ensures Keeps(r, Apply(r, op), Remember(r, h, op))
  {
    hide Keeps, Inv, OpenSubscriber, Register, Unregister, Disconnect, MarkConflict, ClearConflict, Renew, AdvanceSource,
      ExpireDue, BindWorker, Prepare, Abort, Publish, Reclaim, PreparedHistory, RegisterSucceeds;
    match op
    case Open => OpenSubscriberKeeps(r, h);
    case Claim(c, now) => RegisterSound(r, h, c, now);
    case Withdraw(key) => UnregisterKeeps(r, h, key);
    case Drop(id) => DisconnectKeeps(r, h, id);
    case Restart => SweepKeeps(r, h, All, Revoked, 0);
    case Conflict(address) => ConflictKeeps(r, h, address);
    case Clear(address) => ConflictKeeps(r, h, address);
    case Extend(key, expiry, now) => RenewKeeps(r, h, key, expiry, now);
    case Refresh(key, source, expiry, now) => AdvanceSourceKeeps(r, h, key, source, expiry, now);
    case Expire(now) => ExpireKeeps(r, h, now);
    case Bind(worker, stream) => BindKeeps(r, h, worker, stream);
    case Write(plan, now) => PrepareSound(r, h, plan, now);
    case Cancel(ref) => AbortKeeps(r, h, ref);
    case Show(ref, now) => PublishKeeps(r, h, ref, now);
    case Recycle(ref) => ReclaimKeeps(r, h, ref);
  }
}
