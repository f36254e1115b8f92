/**
  AA23 host side: registrations with epochs, leases on an injected clock, and a pool of plan slots
  with incarnations. The host never trusts its own publication: a slot leaves its worker only
  through an acknowledgement or observed termination.
  */
module Registry {
  import opened Octets
  import opened Overlap
  import Address
  import Wire

  const MAX64 := 0xFFFF_FFFF_FFFF_FFFF

  datatype Key = Key(subscriber: nat, address: byte, epoch: nat)

  datatype Identity = Identity(key: Key, worker: nat, stream: nat, plan: nat, source: nat)

  datatype Reading = Reading(domain: nat, tick: nat)

  /** Exclusive deadlines frozen into a plan. */
  datatype Validity = Validity(domain: nat, planExpiry: nat, registrationExpiry: nat, sourceExpiry: nat) {
    predicate Holds(now: Reading) {
      now.domain == domain && now.tick < planExpiry && now.tick < registrationExpiry && now.tick < sourceExpiry
    }
  }

  datatype Clock = Clock(started: bool, closed: bool, domain: nat, last: nat) {
    /** Any regression or incomparable domain latches the guard closed. */
    function Observe(now: Reading): Clock {
      if closed then this
      else if now.domain == 0 then this.(closed := true)
      else if !started then Clock(true, false, now.domain, now.tick)
      else if now.domain != domain || now.tick < last then this.(closed := true)
      else this.(last := now.tick)
    }
  }

  datatype SlotState = Free | Writing | Published | Retained | Reclaimable

  datatype Reason = NoReason | Superseded | Expired | Revoked

  function Rank(r: Reason): nat {
    match r case NoReason => 0 case Superseded => 1 case Expired => 2 case Revoked => 3
  }

  datatype SlotRef = SlotRef(index: nat, incarnation: nat)

  /** One entry as it lies in a slot: where its request and its reply are in the slot's bytes. */
  datatype Stored = Stored(
    any: bool, source: byte, pb: byte, sb: byte, phase: Phase,
    requestStart: nat, requestLen: nat, replyStart: nat, replyLen: nat)

  datatype Slot = Slot(
    state: SlotState, incarnation: nat, identity: Identity, validity: Validity, reason: Reason,
    pinned: bool, entries: seq<Stored>, bytes: seq<byte>)

  datatype FailureAction = Unspecified | Silence | Nack

  datatype Registration = Registration(
    key: Key, leaseExpiry: nat, source: nat, sourceExpiry: nat, failure: (FailureAction, FailureAction, FailureAction))

  /** published is the index of the one published slot of the key, or -1. */
  datatype Record = Record(
    active: bool, registered: Registration, leaseExpiry: nat, source: nat, sourceLease: nat,
    published: int, publishTop: nat)

  datatype Subscriber = Subscriber(open: bool, epochHigh: nat, registrations: int)

  datatype Limits = Limits(
    maxSubscribers: nat, maxRegistrations: nat, maxEntries: nat, maxRequest: nat, maxResponse: nat,
    maxPlanBytes: nat, maxLease: nat)

  /** The registration table is keyed by address; each address has at most one record. */
  datatype Registry = Registry(
    limits: Limits, clock: Clock, subscriberTop: nat, subscribers: map<nat, Subscriber>, records: map<byte, Record>,
    conflicts: set<byte>, workerBound: bool, worker: nat, stream: nat, workerTop: nat, planTop: nat, slots: seq<Slot>)

  datatype Candidate = Candidate(
    identity: Identity, planExpiry: nat, failure: (FailureAction, FailureAction, FailureAction), entries: seq<Entry>)

  datatype Notice = Notice(slot: SlotRef, identity: Identity)

  const NO_KEY := Key(0, 0, 0)
  const NO_IDENTITY := Identity(NO_KEY, 0, 0, 0, 0)
  const NO_VALIDITY := Validity(0, 0, 0, 0)
  const ALL_SILENT := (Silence, Silence, Silence)

  // ---- Slots ----

  predicate Resolves(slots: seq<Slot>, ref: SlotRef) {
    ref.index < |slots| && slots[ref.index].incarnation == ref.incarnation
  }

  /** A slot returns to free under the next incarnation; an exhausted one never wraps. */
  function FreeSlot(s: Slot): Slot {
    if s.incarnation == MAX64 then s
    else Slot(Free, s.incarnation + 1, NO_IDENTITY, NO_VALIDITY, NoReason, s.pinned, [], s.bytes)
  }

  /** The same, for a slot no worker has seen: exhausted, it goes out of service. */
  function Discard(s: Slot): Slot {
    if s.incarnation == MAX64 then s.(state := Reclaimable) else FreeSlot(s)
  }

  function SetSlot(r: Registry, j: nat, s: Slot): Registry
    requires j < |r.slots|
  {
    r.(slots := r.slots[j := s])
  }

  predicate HasRecord(r: Registry, key: Key) {
    key.address in r.records && r.records[key.address].registered.key == key
  }

  function Unpublish(records: map<byte, Record>, key: Key): map<byte, Record> {
    if key.address in records && records[key.address].registered.key == key
    then records[key.address := records[key.address].(published := -1)] else records
  }

  /** What a retirement makes of one slot: a worker may still read what was published. */
  function Retired(s: Slot, reason: Reason): Slot {
    match s.state
    case Writing => Discard(s)
    case Published => s.(state := Retained, reason := reason)
    case Retained => if Rank(reason) > Rank(s.reason) then s.(reason := reason) else s
    case _ => s
  }

  function RetireSlot(r: Registry, j: nat, reason: Reason): Registry
    requires j < |r.slots|
  {
    var s := r.slots[j];
    r.(slots := r.slots[j := Retired(s, reason)],
       records := if s.state == Published then Unpublish(r.records, s.identity.key) else r.records)
  }

  /** Which slots a retirement applies to. */
  datatype Choice = Every | OfKey(key: Key) | AtAddress(address: byte) | DueAt(now: Reading) | StillWriting

  predicate Picked(c: Choice, s: Slot) {
    && s.state != Free && s.state != Reclaimable
    && match c
       case Every => true
       case OfKey(key) => s.identity.key == key
       case AtAddress(address) => s.identity.key.address == address
       case DueAt(now) => s.state == Published && !s.validity.Holds(now)
       case StillWriting => s.state == Writing
  }

  function RetireWhere(r: Registry, reason: Reason, c: Choice, j: nat): Registry
    requires j <= |r.slots|
    decreases |r.slots| - j
  {
    if j == |r.slots| then r
    else RetireWhere(if Picked(c, r.slots[j]) then RetireSlot(r, j, reason) else r, reason, c, j + 1)
  }

  predicate StillHeld(slots: seq<Slot>, key: Key) {
    exists j :: 0 <= j < |slots| && (slots[j].state == Published || slots[j].state == Retained) && slots[j].identity.key == key
  }

  function ForgetRegistration(subscribers: map<nat, Subscriber>, id: nat): map<nat, Subscriber> {
    if id !in subscribers then subscribers
    else
      var s := subscribers[id].(registrations := subscribers[id].registrations - 1);
      if s.open || s.registrations != 0 then subscribers[id := s] else subscribers - {id}
  }

  /** The address is freed only once no plan of a retiring key remains. */
  function Settle(r: Registry, key: Key): Registry {
    if !HasRecord(r, key) || r.records[key.address].active || StillHeld(r.slots, key) then r
    else r.(records := r.records - {key.address}, subscribers := ForgetRegistration(r.subscribers, key.subscriber))
  }

  function Retire(r: Registry, address: byte, reason: Reason): Registry
    requires address in r.records
  {
    var key := r.records[address].registered.key;
    var retiring := r.(records := r.records[address := r.records[address].(active := false)]);
    Settle(RetireWhere(retiring, reason, OfKey(key), 0), key)
  }

  // ---- Clock and leases ----

  /** A clock fault closes admission and retires every plan. */
  function ObserveClock(r: Registry, now: Reading): Registry {
    var clock := r.clock.Observe(now);
    var seen := r.(clock := clock);
    if clock.closed && !r.clock.closed then RetireWhere(seen, Revoked, Every, 0) else seen
  }

  predicate LeaseOk(r: Registry, expiry: nat, now: Reading) {
    now.tick < expiry && expiry - now.tick <= r.limits.maxLease
  }

  // ---- Registrations ----

  function OpenSubscriber(r: Registry): Registry {
    if r.subscriberTop >= MAX64 || |r.subscribers| >= r.limits.maxSubscribers then r
    else r.(subscriberTop := r.subscriberTop + 1,
            subscribers := r.subscribers[r.subscriberTop + 1 := Subscriber(true, 0, 0)])
  }

  /** What a new claim on a free address needs. An exact retry of an incumbent changes nothing. */
  predicate Admissible(r: Registry, c: Registration, now: Reading) {
    && c.key.subscriber != 0 && c.key.epoch != 0 && c.source != 0
    && Address.IsTarget(c.key.address) && c.key.address !in r.records
    && c.key.subscriber in r.subscribers && r.subscribers[c.key.subscriber].open
    && c.key.address !in r.conflicts
    && r.subscribers[c.key.subscriber].epochHigh < MAX64
    && c.key.epoch > r.subscribers[c.key.subscriber].epochHigh
    && c.failure == ALL_SILENT
    && LeaseOk(r, c.leaseExpiry, now) && LeaseOk(r, c.sourceExpiry, now)
    && |r.records| < r.limits.maxRegistrations
  }

  function Admit(r: Registry, c: Registration): Registry
    requires c.key.subscriber in r.subscribers
  {
    var sub := r.subscribers[c.key.subscriber];
    r.(records := r.records[c.key.address := Record(true, c, c.leaseExpiry, c.source, c.sourceExpiry, -1, 0)],
       subscribers := r.subscribers[c.key.subscriber := sub.(epochHigh := c.key.epoch, registrations := sub.registrations + 1)])
  }

  function Register(r: Registry, c: Registration, now: Reading): Registry {
    var seen := ObserveClock(r, now);
    if !seen.clock.closed && Admissible(seen, c, now) then Admit(seen, c) else seen
  }

  function Unregister(r: Registry, key: Key): Registry {
    if HasRecord(r, key) && r.records[key.address].active then Retire(r, key.address, Revoked) else r
  }

  /** Which active records a sweep retires. */
  datatype Sweep = All | OfSubscriber(id: nat) | LapsedAt(now: Reading)

  predicate Swept(s: Sweep, rec: Record) {
    && rec.active
    && match s
       case All => true
       case OfSubscriber(id) => rec.registered.key.subscriber == id
       case LapsedAt(now) => now.tick >= rec.leaseExpiry
  }

  function SweepRecords(r: Registry, s: Sweep, reason: Reason, address: nat): Registry
    requires address <= 256
    decreases 256 - address
  {
    if address == 256 then r
    else
      var next := if address in r.records && Swept(s, r.records[address]) then Retire(r, address, reason) else r;
      SweepRecords(next, s, reason, address + 1)
  }

  function Disconnect(r: Registry, id: nat): Registry {
    if id !in r.subscribers then r
    else
      var closed := r.(subscribers := r.subscribers[id := r.subscribers[id].(open := false)]);
      var swept := SweepRecords(closed, OfSubscriber(id), Revoked, 0);
      if id in swept.subscribers && swept.subscribers[id].registrations == 0
      then swept.(subscribers := swept.subscribers - {id}) else swept
  }

  function Reset(r: Registry): Registry {
    SweepRecords(r, All, Revoked, 0)
  }

  function MarkConflict(r: Registry, address: byte): Registry {
    RetireWhere(r.(conflicts := r.conflicts + {address}), Revoked, AtAddress(address), 0)
  }

  function ClearConflict(r: Registry, address: byte): Registry {
    r.(conflicts := r.conflicts - {address})
  }

  function Renew(r: Registry, key: Key, expiry: nat, now: Reading): Registry {
    var seen := ObserveClock(r, now);
    if seen.clock.closed || !HasRecord(seen, key) then seen
    else
      var rec := seen.records[key.address];
      if !rec.active || now.tick >= rec.leaseExpiry || expiry < rec.leaseExpiry || !LeaseOk(seen, expiry, now) then seen
      else seen.(records := seen.records[key.address := rec.(leaseExpiry := expiry)])
  }

  function AdvanceSource(r: Registry, key: Key, source: nat, expiry: nat, now: Reading): Registry {
    var seen := ObserveClock(r, now);
    if seen.clock.closed || !HasRecord(seen, key) then seen
    else
      var rec := seen.records[key.address];
      if !rec.active || source <= rec.source || !LeaseOk(seen, expiry, now) then seen
      else RetireWhere(seen.(records := seen.records[key.address := rec.(source := source, sourceLease := expiry)]),
                       Revoked, OfKey(key), 0)
  }

  function ExpireDue(r: Registry, now: Reading): Registry {
    var seen := ObserveClock(r, now);
    if seen.clock.closed then seen
    else SweepRecords(RetireWhere(seen, Expired, DueAt(now), 0), LapsedAt(now), Expired, 0)
  }

  // ---- Workers ----

  function BindWorker(r: Registry, worker: nat, stream: nat): Registry {
    var newWorker := worker > r.workerTop;
    var newStream := worker == r.workerTop && r.workerBound && stream > r.stream;
    if worker == 0 || stream == 0 || (!newWorker && !newStream) then r
    else
      var retired := RetireWhere(r, Revoked, Every, 0);
      var renewed := if newWorker
                   then retired.(planTop := 0, records := map a | a in retired.records :: retired.records[a].(publishTop := 0))
                   else retired;
      renewed.(workerBound := true, worker := worker, workerTop := worker, stream := stream)
  }

  /** All access of a worker has ceased: the only way to storage without an acknowledgement. */
  function ReclaimWorker(r: Registry, worker: nat, j: nat): Registry
    requires j <= |r.slots|
    decreases |r.slots| - j
  {
    if j == |r.slots| then r
    else
      var s := r.slots[j];
      if (s.state != Published && s.state != Retained) || s.identity.worker != worker then ReclaimWorker(r, worker, j + 1)
      else
        var retired := RetireSlot(r, j, Revoked);
        var freed := SetSlot(retired, j, retired.slots[j].(pinned := false, state := Reclaimable));
        ReclaimWorker(Settle(freed, s.identity.key), worker, j + 1)
  }

  function Terminate(r: Registry, worker: nat): Registry {
    if worker == 0 || worker > r.workerTop then r
    else
      var unbound := if r.workerBound && r.worker == worker
                     then RetireWhere(r.(workerBound := false), Revoked, StillWriting, 0) else r;
      ReclaimWorker(unbound, worker, 0)
  }

  // ---- Plans ----

  ghost predicate EntryOk(limits: Limits, e: Entry, address: byte) {
    && e.operation == OperationRead && e.phase == PhaseResponse && e.destination == address
    && (if e.any then e.source == 0 else Address.IsInitiator(e.source))
    && e.requestLength == |e.request| <= limits.maxRequest
    && 0 < e.maxEncoded <= limits.maxResponse && |e.response| <= e.maxEncoded
    && exists data: seq<byte> :: |data| <= Wire.MAX_NATIVE_LENGTH && e.response == Wire.Response(data)
  }

  function TotalBytes(entries: seq<Entry>): nat {
    if entries == [] then 0 else |entries[0].request| + |entries[0].response| + TotalBytes(entries[1..])
  }

  /** aa23ValidateCandidate. */
  ghost predicate CandidateOk(limits: Limits, c: Candidate) {
    && c.identity.plan != 0 && c.identity.source != 0 && c.identity.worker != 0 && c.identity.stream != 0
    && c.failure == ALL_SILENT
    && 0 < |c.entries| <= limits.maxEntries
    && (forall i :: 0 <= i < |c.entries| ==> EntryOk(limits, c.entries[i], c.identity.key.address))
    && TotalBytes(c.entries) <= limits.maxPlanBytes
    && !SomeOverlap(c.entries)
  }

  function Frozen(r: Registry, id: Identity, planExpiry: nat): Validity
    requires HasRecord(r, id.key)
  {
    var rec := r.records[id.key.address];
    Validity(r.clock.domain, planExpiry, rec.leaseExpiry, rec.sourceLease)
  }

  predicate Publishable(r: Registry, id: Identity, planExpiry: nat, now: Reading) {
    && r.workerBound && id.worker == r.worker && id.stream == r.stream
    && HasRecord(r, id.key) && r.records[id.key.address].active
    && id.source == r.records[id.key.address].source
    && id.key.address !in r.conflicts
    && Frozen(r, id, planExpiry).Holds(now)
  }

  /** aa23Copy: requests and replies one after the other from the start of the slot's bytes. */
  function StoreFrom(cursor: nat, entries: seq<Entry>): seq<Stored>
    decreases entries
  {
    if entries == [] then []
    else
      var e := entries[0];
      var reply := cursor + |e.request|;
      [Stored(e.any, e.source, e.pb, e.sb, e.phase, cursor, |e.request|, reply, |e.response|)] +
      StoreFrom(reply + |e.response|, entries[1..])
  }

  function Content(entries: seq<Entry>): seq<byte> {
    if entries == [] then [] else entries[0].request + entries[0].response + Content(entries[1..])
  }

  function Overlay(bytes: seq<byte>, content: seq<byte>): seq<byte> {
    if |content| <= |bytes| then content + bytes[|content|..] else content
  }

  function FirstFree(slots: seq<Slot>, j: nat): (i: nat)
    requires j <= |slots|
    ensures j <= i <= |slots| && (i < |slots| ==> slots[i].state == Free)
    decreases |slots| - j
  {
    if j == |slots| || slots[j].state == Free then j else FirstFree(slots, j + 1)
  }

  ghost predicate Preparable(r: Registry, c: Candidate, now: Reading) {
    && CandidateOk(r.limits, c) && Publishable(r, c.identity, c.planExpiry, now)
    && LeaseOk(r, c.planExpiry, now) && r.planTop < MAX64 && c.identity.plan > r.planTop
    && FirstFree(r.slots, 0) < |r.slots|
  }

  function Install(r: Registry, c: Candidate): Registry
    requires FirstFree(r.slots, 0) < |r.slots| && HasRecord(r, c.identity.key)
  {
    var j := FirstFree(r.slots, 0);
    var s := r.slots[j];
    SetSlot(r, j, s.(state := Writing, identity := c.identity, validity := Frozen(r, c.identity, c.planExpiry),
                     entries := StoreFrom(0, c.entries), bytes := Overlay(s.bytes, Content(c.entries))))
      .(planTop := c.identity.plan)
  }

  ghost function Prepare(r: Registry, c: Candidate, now: Reading): Registry {
    var seen := ObserveClock(r, now);
    if !seen.clock.closed && Preparable(seen, c, now) then Install(seen, c) else seen
  }

  ghost predicate PrepareSucceeds(r: Registry, c: Candidate, now: Reading) {
    var seen := ObserveClock(r, now);
    !seen.clock.closed && Preparable(seen, c, now)
  }

  function Abort(r: Registry, ref: SlotRef): Registry {
    if Resolves(r.slots, ref) && r.slots[ref.index].state == Writing
    then SetSlot(r, ref.index, FreeSlot(r.slots[ref.index])) else r
  }

  /** The checks at publication; a candidate gone stale while writing is discarded. */
  predicate StillCurrent(r: Registry, s: Slot, now: Reading) {
    && Publishable(r, s.identity, s.validity.planExpiry, now)
    && s.validity.Holds(now)
    && s.identity.plan > r.records[s.identity.key.address].publishTop
    && var p := r.records[s.identity.key.address].published;
       0 <= p < |r.slots| ==> s.identity.plan > r.slots[p].identity.plan
  }

  function MakeCurrent(r: Registry, j: nat): Registry
    requires j < |r.slots| && HasRecord(r, r.slots[j].identity.key)
  {
    var address := r.slots[j].identity.key.address;
    var p := r.records[address].published;
    var retired := if 0 <= p < |r.slots| then RetireSlot(r, p, Superseded) else r;
    var s := retired.slots[j];
    if address !in retired.records then retired
    else SetSlot(retired, j, s.(state := Published))
           .(records := retired.records[address := retired.records[address].(published := j, publishTop := s.identity.plan)])
  }

  function Publish(r: Registry, ref: SlotRef, now: Reading): (Registry, Option<Notice>) {
    var seen := ObserveClock(r, now);
    if seen.clock.closed || !Resolves(seen.slots, ref) || seen.slots[ref.index].state != Writing then (seen, None)
    else
      var s := seen.slots[ref.index];
      if !StillCurrent(seen, s, now) then (SetSlot(seen, ref.index, Discard(s)), None)
      else (MakeCurrent(seen, ref.index), Some(Notice(ref, s.identity)))
  }

  predicate AckAccepted(r: Registry, ack: Notice) {
    && Resolves(r.slots, ack.slot)
    && var s := r.slots[ack.slot.index];
       s.state == Retained && s.identity == ack.identity && !s.pinned
  }

  function ObserveAck(r: Registry, ack: Notice): Registry {
    if !AckAccepted(r, ack) then r
    else
      var s := r.slots[ack.slot.index];
      Settle(SetSlot(r, ack.slot.index, s.(state := Reclaimable)), s.identity.key)
  }

  function Reclaim(r: Registry, ref: SlotRef): Registry {
    if Resolves(r.slots, ref) && r.slots[ref.index].state == Reclaimable
    then SetSlot(r, ref.index, FreeSlot(r.slots[ref.index])) else r
  }
}
