/**
  The registry and the pool as the objects they are: fields updated in place and loops over slots,
  addresses and entries, each proved to do what the functions on values say.
  */
module PlanObjects {
  import opened Octets
  import opened Overlap
  import opened Registry
  import Plans = Registry
  import Address
  import Wire

  /** Plan storage, shared by the registry and the worker views. */
  class Pool {
    var slots: seq<Slot>

    constructor (size: nat, planBytes: nat)
      ensures |slots| == size
      ensures forall j :: 0 <= j < size ==> slots[j].state == Free && slots[j].incarnation == 1 && |slots[j].bytes| == planBytes
    {
      slots := seq(size, i => Slot(Free, 1, NO_IDENTITY, NO_VALIDITY, NoReason, false, [], seq(planBytes, k => 0)));
    }
  }

  // ---- Candidates ----

  lemma {:induction false} ContentLength(entries: seq<Entry>)
    ensures |Content(entries)| == TotalBytes(entries)
    decreases entries
  {
    if entries != [] { ContentLength(entries[1..]); }
  }

  method ValidateEntry(limits: Limits, e: Entry, address: byte) returns (ok: bool)
    ensures ok <==> EntryOk(limits, e, address)
  {
    if e.operation != OperationRead || e.phase != PhaseResponse || e.destination != address { return false; }
    if e.any {
      if e.source != 0 { return false; }
    } else if !Address.IsInitiator(e.source) {
      return false;
    }
    if e.requestLength != |e.request| || |e.request| > limits.maxRequest { return false; }
    if e.maxEncoded == 0 || e.maxEncoded > limits.maxResponse || |e.response| > e.maxEncoded { return false; }
    ok := Wire.ValidateEncodedResponse(e.response);
  }

  /** The whole candidate is checked before any effect; it is admitted exactly when every rule holds. */
  method ValidateCandidate(limits: Limits, c: Candidate) returns (ok: bool)
    ensures ok <==> CandidateOk(limits, c)
  {
    hide EntryOk, SomeOverlap;
    if c.identity.plan == 0 || c.identity.source == 0 || c.identity.worker == 0 || c.identity.stream == 0 { return false; }
    if c.failure != ALL_SILENT || |c.entries| == 0 || |c.entries| > limits.maxEntries { return false; }
    var total, i := 0, 0;
    assert c.entries[0..] == c.entries;
    while i < |c.entries|
      invariant 0 <= i <= |c.entries| && total <= limits.maxPlanBytes
      invariant total + TotalBytes(c.entries[i..]) == TotalBytes(c.entries)
      invariant forall k :: 0 <= k < i ==> EntryOk(limits, c.entries[k], c.identity.key.address)
    {
      var valid := ValidateEntry(limits, c.entries[i], c.identity.key.address);
      if !valid { return false; }
      assert c.entries[i..][0] == c.entries[i] && c.entries[i..][1..] == c.entries[i + 1..];
      total := total + |c.entries[i].request| + |c.entries[i].response|;
      if total > limits.maxPlanBytes { return false; }
      i := i + 1;
    }
    var order := new int[|c.entries|];
    var overlaps := PlanOverlaps(c.entries, order);
    return !overlaps;
  }

  function StoredAs(e: Entry, cursor: nat): Stored {
    Stored(e.any, e.source, e.pb, e.sb, e.phase, cursor, |e.request|, cursor + |e.request|, |e.response|)
  }

  /** aa23Copy: one entry after the other into the slot's own bytes. */
  method CopyEntries(entries: seq<Entry>, bytes: seq<byte>) returns (stored: seq<Stored>, filled: seq<byte>)
    requires TotalBytes(entries) <= |bytes|
    ensures stored == StoreFrom(0, entries) && filled == Overlay(bytes, Content(entries))
  {
    hide StoreFrom, Content, Overlay;
    stored, filled := [], bytes;
    var cursor, i := 0, 0;
    ContentLength(entries);
    assert entries[0..] == entries;
    while i < |entries|
      invariant 0 <= i <= |entries| && 0 <= cursor <= |filled| == |bytes|
      invariant cursor + |Content(entries[i..])| == |Content(entries)|
      invariant filled[..cursor] + Content(entries[i..]) == Content(entries) && filled[cursor..] == bytes[cursor..]
      invariant stored + StoreFrom(cursor, entries[i..]) == StoreFrom(0, entries)
    {
      var e := entries[i];
      Unrolled(entries, i, cursor);
      var piece := e.request + e.response;
      stored := stored + [StoredAs(e, cursor)];
      Spliced(filled, bytes, cursor, piece, Content(entries[i + 1..]), Content(entries));
      filled := filled[..cursor] + piece + filled[cursor + |piece|..];
      cursor := cursor + |piece|;
      i := i + 1;
    }
    Exhausted(entries, cursor);
    Overlaid(bytes, filled, cursor, Content(entries));
  }

  lemma Unrolled(entries: seq<Entry>, i: nat, cursor: nat)
    requires i < |entries|
    ensures var e, rest := entries[i], entries[i + 1..];
      && Content(entries[i..]) == (e.request + e.response) + Content(rest)
      && StoreFrom(cursor, entries[i..]) == [StoredAs(e, cursor)] + StoreFrom(cursor + |e.request + e.response|, rest)
  {
    assert entries[i..][0] == entries[i] && entries[i..][1..] == entries[i + 1..];
  }

  lemma Exhausted(entries: seq<Entry>, cursor: nat)
    ensures Content(entries[|entries|..]) == [] && StoreFrom(cursor, entries[|entries|..]) == []
  {
  }

  lemma Overlaid(bytes: seq<byte>, filled: seq<byte>, cursor: nat, content: seq<byte>)
    requires |filled| == |bytes| && cursor <= |bytes| && filled[..cursor] + [] == content && filled[cursor..] == bytes[cursor..]
    ensures filled == Overlay(bytes, content)
  {
    assert filled == filled[..cursor] + filled[cursor..];
  }

  lemma Spliced(filled: seq<byte>, bytes: seq<byte>, cursor: nat, piece: seq<byte>, rest: seq<byte>, whole: seq<byte>)
    requires |filled| == |bytes| && cursor + |piece| <= |bytes| && filled[cursor..] == bytes[cursor..]
    requires filled[..cursor] + (piece + rest) == whole
    ensures var n := filled[..cursor] + piece + filled[cursor + |piece|..];
      |n| == |bytes| && n[..cursor + |piece|] + rest == whole && n[cursor + |piece|..] == bytes[cursor + |piece|..]
  {
    var n, k := filled[..cursor] + piece + filled[cursor + |piece|..], cursor + |piece|;
    assert n[..k] == filled[..cursor] + piece;
    assert n[k..] == filled[k..];
    assert filled[k..] == filled[cursor..][|piece|..];
    assert bytes[k..] == bytes[cursor..][|piece|..];
  }

  // ---- The registry ----

  class PlanRegistry {
    const limits: Limits
    const pool: Pool
    var clock: Clock
    var subscriberTop: nat
    var subscribers: map<nat, Subscriber>
    var records: map<byte, Record>
    var conflicts: set<byte>
    var workerBound: bool
    var worker: nat
    var stream: nat
    var workerTop: nat
    var planTop: nat

    function Value(): Registry
      reads this, pool
    {
      Registry(limits, clock, subscriberTop, subscribers, records, conflicts, workerBound, worker, stream, workerTop, planTop, pool.slots)
    }

    constructor (given: Limits, slotCount: nat, floor: nat)
      ensures fresh(pool) && |pool.slots| == slotCount
      ensures Value() == Registry(given, Clock(false, false, 0, 0), floor, map[], map[], {}, false, 0, 0, 0, 0, pool.slots)
      ensures forall j :: 0 <= j < slotCount ==> pool.slots[j].state == Free && pool.slots[j].incarnation == 1
    {
      limits := given;
      pool := new Pool(slotCount, given.maxPlanBytes);
      clock, subscriberTop, subscribers, records, conflicts := Clock(false, false, 0, 0), floor, map[], map[], {};
      workerBound, worker, stream, workerTop, planTop := false, 0, 0, 0, 0;
    }

    method RetireSlot(j: nat, reason: Reason)
      requires j < |pool.slots|
      modifies this`records, pool
      ensures Value() == Plans.RetireSlot(old(Value()), j, reason)
    {
      var s := pool.slots[j];
      match s.state {
        case Writing =>
          if s.incarnation == MAX64 {
            pool.slots := pool.slots[j := s.(state := Reclaimable)];
          } else {
            pool.slots := pool.slots[j := FreeSlot(s)];
          }
        case Published =>
          pool.slots := pool.slots[j := s.(state := Retained, reason := reason)];
          records := Unpublish(records, s.identity.key);
        case Retained =>
          if Rank(reason) > Rank(s.reason) { pool.slots := pool.slots[j := s.(reason := reason)]; }
        case _ =>
      }
    }

    /** One pass over the pool. */
    method RetireWhere(reason: Reason, c: Choice)
      modifies this`records, pool
      ensures Value() == Plans.RetireWhere(old(Value()), reason, c, 0)
    {
      hide Picked, Plans.RetireSlot;
      var j := 0;
      while j < |pool.slots|
        invariant j <= |pool.slots| == |old(Value()).slots|
        invariant Plans.RetireWhere(Value(), reason, c, j) == Plans.RetireWhere(old(Value()), reason, c, 0)
        decreases |pool.slots| - j
      {
        ghost var before := Value();
        if Picked(c, pool.slots[j]) {
          SameLength(before, j, reason);
          RetireSlot(j, reason);
        }
        j := j + 1;
      }
    }

    method ObserveClock(now: Reading) returns (ok: bool)
      modifies this`clock, this`records, pool
      ensures Value() == Plans.ObserveClock(old(Value()), now) && ok == !clock.closed
    {
      var wasClosed := clock.closed;
      clock := clock.Observe(now);
      if clock.closed && !wasClosed { RetireWhere(Revoked, Every); }
      return !clock.closed;
    }

    /** Frees the address of a retiring key once a scan finds no plan of it with a worker. */
    method Settle(key: Key)
      modifies this`records, this`subscribers
      ensures Value() == Plans.Settle(old(Value()), key)
    {
      if key.address !in records || records[key.address].registered.key != key || records[key.address].active { return; }
      var j := 0;
      while j < |pool.slots|
        invariant 0 <= j <= |pool.slots|
        invariant forall k :: 0 <= k < j ==>
          !((pool.slots[k].state == Published || pool.slots[k].state == Retained) && pool.slots[k].identity.key == key)
      {
        if (pool.slots[j].state == Published || pool.slots[j].state == Retained) && pool.slots[j].identity.key == key { return; }
        j := j + 1;
      }
      records := records - {key.address};
      subscribers := ForgetRegistration(subscribers, key.subscriber);
    }

    method Retire(address: byte, reason: Reason)
      requires address in records
      modifies this`records, this`subscribers, pool
      ensures Value() == Plans.Retire(old(Value()), address, reason)
    {
      hide Plans.RetireWhere, Plans.Settle;
      var key := records[address].registered.key;
      records := records[address := records[address].(active := false)];
      RetireWhere(reason, OfKey(key));
      Settle(key);
    }

    method SweepRecords(s: Sweep, reason: Reason)
      modifies this`records, this`subscribers, pool
      ensures Value() == Plans.SweepRecords(old(Value()), s, reason, 0)
    {
      hide Plans.Retire, Swept;
      var address: int := 0;
      ghost var goal := Plans.SweepRecords(Value(), s, reason, address);
      while address < 256
        invariant 0 <= address <= 256
        invariant Plans.SweepRecords(Value(), s, reason, address) == goal
      {
        if address in records && Swept(s, records[address]) { Retire(address, reason); }
        address := address + 1;
      }
    }

    method OpenSubscriber() returns (id: Option<nat>)
      modifies this`subscriberTop, this`subscribers
      ensures Value() == Plans.OpenSubscriber(old(Value()))
      ensures id.Some? ==> id.value == subscriberTop == old(subscriberTop) + 1
    {
      if subscriberTop >= MAX64 || |subscribers| >= limits.maxSubscribers { return None; }
      subscriberTop := subscriberTop + 1;
      subscribers := subscribers[subscriberTop := Subscriber(true, 0, 0)];
      return Some(subscriberTop);
    }

    method Register(c: Registration, now: Reading) returns (ok: bool)
      modifies this, pool
      ensures Value() == Plans.Register(old(Value()), c, now)
    {
      hide Plans.ObserveClock, Admissible;
      var usable := ObserveClock(now);
      ok := usable && Admissible(Value(), c, now);
      if ok {
        AdmissibleHasSubscriber(Value(), c, now);
        var sub := subscribers[c.key.subscriber];
        records := records[c.key.address := Record(true, c, c.leaseExpiry, c.source, c.sourceExpiry, -1, 0)];
        subscribers := subscribers[c.key.subscriber := sub.(epochHigh := c.key.epoch, registrations := sub.registrations + 1)];
      }
    }

    method Unregister(key: Key)
      modifies this`records, this`subscribers, pool
      ensures Value() == Plans.Unregister(old(Value()), key)
    {
      hide Plans.Retire;
      if HasRecord(Value(), key) && records[key.address].active { Retire(key.address, Revoked); }
    }

    method Disconnect(id: nat)
      modifies this`records, this`subscribers, pool
      ensures Value() == Plans.Disconnect(old(Value()), id)
    {
      hide Plans.SweepRecords;
      if id !in subscribers { return; }
      subscribers := subscribers[id := subscribers[id].(open := false)];
      SweepRecords(OfSubscriber(id), Revoked);
      if id in subscribers && subscribers[id].registrations == 0 { subscribers := subscribers - {id}; }
    }

    method MarkConflict(address: byte)
      modifies this`conflicts, this`records, pool
      ensures Value() == Plans.MarkConflict(old(Value()), address)
    {
      hide Plans.RetireWhere;
      conflicts := conflicts + {address};
      RetireWhere(Revoked, AtAddress(address));
    }

    method Renew(key: Key, expiry: nat, now: Reading) returns (ok: bool)
      modifies this`clock, this`records, pool
      ensures Value() == Plans.Renew(old(Value()), key, expiry, now)
    {
      hide Plans.ObserveClock;
      var usable := ObserveClock(now);
      if !usable || !HasRecord(Value(), key) { return false; }
      var rec := records[key.address];
      if !rec.active || now.tick >= rec.leaseExpiry || expiry < rec.leaseExpiry || !LeaseOk(Value(), expiry, now) { return false; }
      records := records[key.address := rec.(leaseExpiry := expiry)];
      return true;
    }

    method AdvanceSource(key: Key, source: nat, expiry: nat, now: Reading) returns (ok: bool)
      modifies this`clock, this`records, pool
      ensures Value() == Plans.AdvanceSource(old(Value()), key, source, expiry, now)
    {
      hide Plans.ObserveClock, Plans.RetireWhere;
      var usable := ObserveClock(now);
      if !usable || !HasRecord(Value(), key) { return false; }
      var rec := records[key.address];
      if !rec.active || source <= rec.source || !LeaseOk(Value(), expiry, now) { return false; }
      records := records[key.address := rec.(source := source, sourceLease := expiry)];
      RetireWhere(Revoked, OfKey(key));
      return true;
    }

    method ExpireDue(now: Reading)
      modifies this`clock, this`records, this`subscribers, pool
      ensures Value() == Plans.ExpireDue(old(Value()), now)
    {
      hide Plans.ObserveClock, Plans.RetireWhere, Plans.SweepRecords;
      var usable := ObserveClock(now);
      if usable {
        RetireWhere(Expired, DueAt(now));
        SweepRecords(LapsedAt(now), Expired);
      }
    }

    /** A new worker restarts plan numbers; every plan of the old binding is retired. */
    method BindWorker(id: nat, generation: nat) returns (ok: bool)
      modifies this, pool
      ensures Value() == Plans.BindWorker(old(Value()), id, generation)
    {
      hide Plans.RetireWhere;
      var newWorker := id > workerTop;
      var newStream := id == workerTop && workerBound && generation > stream;
      if id == 0 || generation == 0 || (!newWorker && !newStream) { return false; }
      RetireWhere(Revoked, Every);
      if newWorker {
        planTop := 0;
        records := map a | a in records :: records[a].(publishTop := 0);
      }
      workerBound, worker, workerTop, stream := true, id, id, generation;
      return true;
    }

    /** All access of a worker has ceased: its published and retained slots become reclaimable. */
    method ObserveTerminated(id: nat)
      modifies this, pool
      ensures Value() == Plans.Terminate(old(Value()), id)
    {
      hide Plans.RetireWhere, Plans.RetireSlot, Plans.Settle;
      if id == 0 || id > workerTop { return; }
      if workerBound && worker == id {
        workerBound := false;
        RetireWhere(Revoked, StillWriting);
      }
      var j := 0;
      ghost var start := Value();
      while j < |pool.slots|
        invariant 0 <= j <= |pool.slots| == |start.slots|
        invariant Plans.ReclaimWorker(Value(), id, j) == Plans.ReclaimWorker(start, id, 0)
      {
        var s := pool.slots[j];
        if (s.state == Published || s.state == Retained) && s.identity.worker == id {
          SameLength(Value(), j, Revoked);
          RetireSlot(j, Revoked);
          ghost var retired := Value();
          pool.slots := pool.slots[j := pool.slots[j].(pinned := false, state := Reclaimable)];
          SettleSameSlots(Value(), s.identity.key);
          Settle(s.identity.key);
        }
        j := j + 1;
      }
    }

    // ---- Plans ----

    ghost predicate Roomy()
      reads this, pool
    {
      forall j :: 0 <= j < |pool.slots| ==> |pool.slots[j].bytes| >= limits.maxPlanBytes
    }

    /** Validates the whole candidate, then copies it into the first free slot. */
    method PreparePlan(c: Candidate, now: Reading) returns (ref: Option<SlotRef>)
      requires Roomy()
      modifies this, pool
      ensures Value() == Plans.Prepare(old(Value()), c, now)
      ensures ref.Some? <==> PrepareSucceeds(old(Value()), c, now)
      ensures ref.Some? ==> Resolves(pool.slots, ref.value) && pool.slots[ref.value.index].identity == c.identity
    {
      hide Plans.ObserveClock, CandidateOk, Publishable, StoreFrom, Content, Overlay;
      RoomyKept(Value(), now, limits.maxPlanBytes);
      var usable := ObserveClock(now);
      if !usable { return None; }
      var valid := ValidateCandidate(limits, c);
      if !valid || !Publishable(Value(), c.identity, c.planExpiry, now) || !LeaseOk(Value(), c.planExpiry, now) ||
         planTop >= MAX64 || c.identity.plan <= planTop {
        return None;
      }
      var j := FirstFree(pool.slots, 0);
      if j == |pool.slots| { return None; }
      HasRecordIfPublishable(Value(), c.identity, c.planExpiry, now);
      var s := pool.slots[j];
      CandidateFits(limits, c);
      var stored, filled := CopyEntries(c.entries, s.bytes);
      var validity := Frozen(Value(), c.identity, c.planExpiry);
      planTop := c.identity.plan;
      pool.slots := pool.slots[j := s.(state := Writing, identity := c.identity, validity := validity, entries := stored, bytes := filled)];
      return Some(SlotRef(j, s.incarnation));
    }

    method PublishPrepared(ref: SlotRef, now: Reading) returns (notice: Option<Notice>)
      modifies this, pool
      ensures (Value(), notice) == Plans.Publish(old(Value()), ref, now)
    {
      hide Plans.ObserveClock, Plans.RetireSlot, Publishable;
      var usable := ObserveClock(now);
      if !usable || !Resolves(pool.slots, ref) || pool.slots[ref.index].state != Writing { return None; }
      var s := pool.slots[ref.index];
      if !StillCurrent(Value(), s, now) {
        pool.slots := pool.slots[ref.index := Discard(s)];
        return None;
      }
      HasRecordIfPublishable(Value(), s.identity, s.validity.planExpiry, now);
      var identity, address := s.identity, s.identity.key.address;
      var p := records[address].published;
      if 0 <= p < |pool.slots| {
        SameLength(Value(), p, Superseded);
        RetireSlot(p, Superseded);
      }
      s := pool.slots[ref.index];
      if address in records {
        pool.slots := pool.slots[ref.index := s.(state := Published)];
        records := records[address := records[address].(published := ref.index, publishTop := s.identity.plan)];
      }
      return Some(Notice(ref, identity));
    }

    method ObserveAcknowledgement(ack: Notice) returns (ok: bool)
      modifies this`records, this`subscribers, pool
      ensures Value() == Plans.ObserveAck(old(Value()), ack) && ok == AckAccepted(old(Value()), ack)
    {
      hide Plans.Settle;
      if !AckAccepted(Value(), ack) { return false; }
      var s := pool.slots[ack.slot.index];
      pool.slots := pool.slots[ack.slot.index := s.(state := Reclaimable)];
      Settle(s.identity.key);
      return true;
    }
  }

  lemma SettleSameSlots(r: Registry, key: Key)
    ensures Plans.Settle(r, key).slots == r.slots
  {
  }

  lemma HasRecordIfPublishable(r: Registry, id: Identity, planExpiry: nat, now: Reading)
    requires Publishable(r, id, planExpiry, now)
    ensures HasRecord(r, id.key)
  {
  }

  lemma CandidateFits(limits: Limits, c: Candidate)
    requires CandidateOk(limits, c)
    ensures TotalBytes(c.entries) <= limits.maxPlanBytes
  {
  }

  lemma AdmissibleHasSubscriber(r: Registry, c: Registration, now: Reading)
    requires Admissible(r, c, now)
    ensures c.key.subscriber in r.subscribers
  {
  }

  ghost predicate AtLeast(slots: seq<Slot>, n: nat) {
    forall j :: 0 <= j < |slots| ==> |slots[j].bytes| >= n
  }

  /** A clock observation moves no bytes. */
  lemma RoomyKept(r: Registry, now: Reading, n: nat)
    requires AtLeast(r.slots, n)
    ensures AtLeast(Plans.ObserveClock(r, now).slots, n)
  {
    hide Plans.RetireWhere;
    RetireMovesNoBytes(r.(clock := r.clock.Observe(now)), Revoked, Every, 0, n);
  }

  lemma {:induction false} RetireMovesNoBytes(r: Registry, reason: Reason, c: Choice, j: nat, n: nat)
    requires j <= |r.slots| && AtLeast(r.slots, n)
    ensures AtLeast(Plans.RetireWhere(r, reason, c, j).slots, n)
    decreases |r.slots| - j
  {
    hide Picked;
    if j < |r.slots| {
      SameLength(r, j, reason);
      RetireMovesNoBytes(if Picked(c, r.slots[j]) then Plans.RetireSlot(r, j, reason) else r, reason, c, j + 1, n);
    }
  }

  lemma SameLength(r: Registry, j: nat, reason: Reason)
    requires j < |r.slots|
    ensures |Plans.RetireSlot(r, j, reason).slots| == |r.slots|
  {
  }
}
