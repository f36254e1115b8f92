/** The worker view as an object over the shared pool, proved against the view on values. */
module ViewObjects {
  import opened Octets
  import opened Overlap
  import opened Registry
  import opened WorkerView
  import opened PlanObjects
  import Address
  import Views = WorkerView

  class PlanView {
    const pool: Pool
    const worker: nat
    var stream: nat
    var clock: Clock
    var planTop: map<byte, nat>
    var transactionTop: nat
    var current: map<byte, SlotRef>
    var notes: map<nat, Note>
    var pin: Option<Pin>

    function Value(): View
      reads this
    {
      View(worker, stream, clock, planTop, transactionTop, current, notes, pin)
    }

    constructor (shared: Pool, id: nat, generation: nat)
      ensures pool == shared && Value() == NewView(id, generation)
    {
      pool, worker, stream, clock := shared, id, generation, Clock(false, false, 0, 0);
      planTop, transactionTop, current, notes, pin := map[], 0, map[], map[], None;
    }

    /** The note of this incarnation, started afresh when the slot has a new one. */
    method Record(ref: SlotRef) returns (n: Note)
      modifies this`notes
      ensures n == NoteOf(old(Value()), ref) && Value() == SetNote(old(Value()), ref, n)
    {
      if ref.index !in notes || notes[ref.index].incarnation != ref.incarnation {
        notes := notes[ref.index := Note(ref.incarnation, false, false)];
      }
      n := notes[ref.index];
    }

    method AdoptPlan(n: Notice, now: Reading) returns (ack: Option<Notice>)
      modifies this
      ensures (Value(), ack) == Adopt(pool.slots, old(Value()), n, now)
    {
      hide NoteOf, SetNote;
      clock := clock.Observe(now);
      if clock.closed || !Adoptable(pool.slots, Value(), n, now) { return None; }
      var address := n.identity.key.address;
      var had := address in current;
      var previous := if had then current[address] else n.slot;
      planTop := planTop[address := n.identity.plan];
      current := current[address := n.slot];
      if !had || !Resolves(pool.slots, previous) { return None; }
      Annotate(previous, false);
      return Ready(Value(), previous, pool.slots[previous.index].identity);
    }

    method Annotate(ref: SlotRef, revoked: bool)
      modifies this`notes
      ensures Value() == SetNote(old(Value()), ref,
        if revoked then NoteOf(old(Value()), ref).(revoked := true) else NoteOf(old(Value()), ref).(superseded := true))
    {
      var n := Record(ref);
      notes := notes[ref.index := if revoked then n.(revoked := true) else n.(superseded := true)];
    }

    method Revoke(n: Revocation) returns (ack: Option<Notice>)
      modifies this
      ensures (Value(), ack) == ObserveRevocation(pool.slots, old(Value()), n)
    {
      hide NoteOf;
      if !Heeded(pool.slots, Value(), n) { return None; }
      Annotate(n.slot, n.reason != Superseded);
      var address := n.identity.key.address;
      if address in current && current[address] == n.slot { current := current - {address}; }
      return Ready(Value(), n.slot, n.identity);
    }

    method DropPin()
      requires pin.Some?
      modifies this`pin, pool
      ensures pin.None? && pool.slots == Unpin(old(pool.slots), old(pin).value.slot)
    {
      var ref := pin.value.slot;
      if Resolves(pool.slots, ref) { pool.slots := pool.slots[ref.index := pool.slots[ref.index].(pinned := false)]; }
      pin := None;
    }

    /** Every selection of the old stream ends at once. */
    method Advance(generation: nat) returns (ok: bool)
      modifies this, pool
      ensures (pool.slots, Value()) == AdvanceStream(old(pool.slots), old(Value()), generation) && ok == (generation > old(stream))
    {
      if generation <= stream { return false; }
      if pin.Some? { DropPin(); }
      stream, transactionTop, current := generation, 0, map[];
      return true;
    }

    /** The ordinal is consumed even when selection is refused. */
    method SelectProvisional(address: byte, transaction: nat, now: Reading) returns (key: Option<WireKey>)
      modifies this, pool
      ensures (pool.slots, Value()) == Select(old(pool.slots), old(Value()), address, transaction, now)
      ensures key.Some? ==> pin.Some? && pin.value.key == key.value && old(pin).None?
    {
      clock := clock.Observe(now);
      if clock.closed || transaction == 0 || transaction <= transactionTop { return None; }
      transactionTop := transaction;
      if !Selectable(pool.slots, Value(), address, now) { return None; }
      var ref := current[address];
      var wire := WireKey(pool.slots[ref.index].identity, transaction);
      pool.slots := pool.slots[ref.index := pool.slots[ref.index].(pinned := true)];
      pin := Some(Pin(wire, ref));
      return Some(wire);
    }

    /** The whole admission check, repeated at every boundary; it always observes the clock. */
    method Validate(held: WireKey, claimed: WireKey, now: Reading) returns (live: bool)
      modifies this`clock, this`notes
      ensures live == Live(pool.slots, old(Value()), held, claimed, now)
      ensures live ==> Live(pool.slots, Value(), held, claimed, now)
      ensures Value() == old(Value()).(clock := old(clock).Observe(now), notes := notes)
      ensures forall ref: SlotRef :: Resolves(pool.slots, ref) && (pin.Some? ==> pin.value.slot.index == ref.index ==> pin.value.slot == ref) ==>
        NoteOf(Value(), ref) == NoteOf(old(Value()), ref)
    {
      hide Clock.Observe;
      assert clock.Observe(now).Observe(now).closed == clock.Observe(now).closed by { Twice(clock, now); }
      clock := clock.Observe(now);
      if clock.closed || pin.None? || pin.value.key != held || claimed != held || !Resolves(pool.slots, pin.value.slot) { return false; }
      var s := pool.slots[pin.value.slot.index];
      if s.state != Published && s.state != Retained { return false; }
      var n := Record(pin.value.slot);
      return !n.revoked && s.validity.Holds(now);
    }

    /** A bounded scan for the single exact entry. */
    method Match(held: WireKey, claimed: WireKey, q: Query, now: Reading) returns (entry: Option<nat>)
      modifies this`clock, this`notes
      ensures entry == Views.Match(pool.slots, old(Value()), held, claimed, q, now)
    {
      hide Live, StoredSelects;
      var live := Validate(held, claimed, now);
      if !live { return None; }
      LivePin(pool.slots, old(Value()), held, claimed, now);
      var s := pool.slots[pin.value.slot.index];
      if q.destination != s.identity.key.address || !Address.IsInitiator(q.source) { return None; }
      var i := 0;
      while i < |s.entries|
        invariant 0 <= i <= |s.entries| && MatchFrom(s, q, i) == MatchFrom(s, q, 0)
      {
        if StoredSelects(s, i, q) { return Some(i); }
        i := i + 1;
      }
      return None;
    }

    method ResponseSymbol(held: WireKey, claimed: WireKey, entry: nat, offset: nat, phase: Phase, now: Reading) returns (b: Option<byte>)
      modifies this`clock, this`notes
      ensures b == Symbol(pool.slots, old(Value()), held, claimed, entry, offset, phase, now)
    {
      hide Live;
      var live := Validate(held, claimed, now);
      if !live { return None; }
      LivePin(pool.slots, old(Value()), held, claimed, now);
      var s := pool.slots[pin.value.slot.index];
      if entry >= |s.entries| || phase != s.entries[entry].phase || offset >= s.entries[entry].replyLen ||
         s.entries[entry].replyStart + offset >= |s.bytes| {
        return None;
      }
      return Some(s.bytes[s.entries[entry].replyStart + offset]);
    }

    method Release(held: WireKey) returns (ack: Option<Notice>)
      modifies this, pool
      ensures (pool.slots, Value(), ack) == ReleasePin(old(pool.slots), old(Value()), held)
    {
      hide NoteOf;
      if pin.None? || pin.value.key != held { return None; }
      var ref := pin.value.slot;
      var n := Record(ref);
      DropPin();
      return if n.superseded || n.revoked then Some(Notice(ref, held.identity)) else None;
    }
  }

  lemma Twice(c: Clock, now: Reading)
    ensures c.Observe(now).Observe(now).closed == c.Observe(now).closed
  {
  }

  lemma LivePin(slots: seq<Slot>, v: View, held: WireKey, claimed: WireKey, now: Reading)
    requires Live(slots, v, held, claimed, now)
    ensures v.pin.Some? && Resolves(slots, v.pin.value.slot)
  {
  }
}
