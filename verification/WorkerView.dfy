/** AA23 worker side: what a worker has itself observed, and the one pin of its transaction. */
module WorkerView {
  import opened Octets
  import opened Overlap
  import opened Registry
  import Address

  datatype Revocation = Revocation(slot: SlotRef, identity: Identity, reason: Reason)

  datatype WireKey = WireKey(identity: Identity, transaction: nat)

  /** What the worker observed about one slot incarnation. */
  datatype Note = Note(incarnation: nat, superseded: bool, revoked: bool)

  datatype Pin = Pin(key: WireKey, slot: SlotRef)

  datatype View = View(
    worker: nat, stream: nat, clock: Clock, planTop: map<byte, nat>, transactionTop: nat,
    current: map<byte, SlotRef>, notes: map<nat, Note>, pin: Option<Pin>)

  function NewView(worker: nat, stream: nat): View {
    View(worker, stream, Clock(false, false, 0, 0), map[], 0, map[], map[], None)
  }

  function Top(v: View, address: byte): nat {
    if address in v.planTop then v.planTop[address] else 0
  }

  /** The note of one incarnation; a new incarnation starts a fresh note. */
  function NoteOf(v: View, ref: SlotRef): Note {
    if ref.index in v.notes && v.notes[ref.index].incarnation == ref.incarnation then v.notes[ref.index]
    else Note(ref.incarnation, false, false)
  }

  function SetNote(v: View, ref: SlotRef, n: Note): View {
    v.(notes := v.notes[ref.index := n])
  }

  predicate HoldsPin(v: View, ref: SlotRef) {
    v.pin.Some? && v.pin.value.slot == ref
  }

  /** An acknowledgement is ready only when the slot has no reader. */
  function Ready(v: View, ref: SlotRef, id: Identity): Option<Notice> {
    if HoldsPin(v, ref) then None else Some(Notice(ref, id))
  }

  predicate Adoptable(slots: seq<Slot>, v: View, n: Notice, now: Reading) {
    && Resolves(slots, n.slot)
    && var s := slots[n.slot.index];
    && s.state == Published && s.identity == n.identity
    && n.identity.worker == v.worker && n.identity.stream == v.stream
    && n.identity.plan > Top(v, n.identity.key.address)
    && s.validity.Holds(now)
  }

  /** Installs a published generation; may acknowledge the one it replaces. */
  function Adopt(slots: seq<Slot>, v: View, n: Notice, now: Reading): (View, Option<Notice>) {
    var seen := v.(clock := v.clock.Observe(now));
    if seen.clock.closed || !Adoptable(slots, seen, n, now) then (seen, None)
    else
      var address := n.identity.key.address;
      var installed := seen.(planTop := seen.planTop[address := n.identity.plan], current := seen.current[address := n.slot]);
      if address !in seen.current || !Resolves(slots, seen.current[address]) then (installed, None)
      else
        var previous := seen.current[address];
        var noted := SetNote(installed, previous, NoteOf(installed, previous).(superseded := true));
        (noted, Ready(noted, previous, slots[previous.index].identity))
  }

  predicate Heeded(slots: seq<Slot>, v: View, n: Revocation) {
    && Resolves(slots, n.slot)
    && slots[n.slot.index].state == Retained && slots[n.slot.index].identity == n.identity
    && n.identity.worker == v.worker && n.identity.stream <= v.stream
  }

  /** Selection is fenced at once; a supersession lets a selected transaction finish. */
  function ObserveRevocation(slots: seq<Slot>, v: View, n: Revocation): (View, Option<Notice>) {
    if !Heeded(slots, v, n) then (v, None)
    else
      var note := NoteOf(v, n.slot);
      var noted := SetNote(v, n.slot, if n.reason == Superseded then note.(superseded := true) else note.(revoked := true));
      var address := n.identity.key.address;
      var fenced := if address in noted.current && noted.current[address] == n.slot
                    then noted.(current := noted.current - {address}) else noted;
      (fenced, Ready(fenced, n.slot, n.identity))
  }

  function Unpin(slots: seq<Slot>, ref: SlotRef): seq<Slot> {
    if Resolves(slots, ref) then slots[ref.index := slots[ref.index].(pinned := false)] else slots
  }

  function AdvanceStream(slots: seq<Slot>, v: View, stream: nat): (seq<Slot>, View) {
    if stream <= v.stream then (slots, v)
    else
      (if v.pin.Some? then Unpin(slots, v.pin.value.slot) else slots,
       v.(stream := stream, transactionTop := 0, current := map[], pin := None))
  }

  predicate Selectable(slots: seq<Slot>, v: View, address: byte, now: Reading) {
    && v.pin.None? && address in v.current && Resolves(slots, v.current[address])
    && var s := slots[v.current[address].index];
    && (s.state == Published || s.state == Retained)
    && s.validity.Holds(now)
  }

  /** Pins the current plan of a destination; the ordinal is consumed even when refused. */
  function Select(slots: seq<Slot>, v: View, address: byte, transaction: nat, now: Reading): (seq<Slot>, View) {
    var seen := v.(clock := v.clock.Observe(now));
    if seen.clock.closed || transaction == 0 || transaction <= seen.transactionTop then (slots, seen)
    else
      var numbered := seen.(transactionTop := transaction);
      if !Selectable(slots, numbered, address, now) then (slots, numbered)
      else
        var ref := numbered.current[address];
        var key := WireKey(slots[ref.index].identity, transaction);
        (slots[ref.index := slots[ref.index].(pinned := true)], numbered.(pin := Some(Pin(key, ref))))
  }

  /** aa23Live: the whole admission check, repeated at every boundary. */
  predicate Live(slots: seq<Slot>, v: View, pinKey: WireKey, claimed: WireKey, now: Reading) {
    && !v.clock.Observe(now).closed
    && v.pin.Some? && v.pin.value.key == pinKey && claimed == pinKey
    && Resolves(slots, v.pin.value.slot)
    && var s := slots[v.pin.value.slot.index];
    && (s.state == Published || s.state == Retained)
    && !NoteOf(v, v.pin.value.slot).revoked
    && s.validity.Holds(now)
  }

  /** Why a pin is not live. */
  datatype PinFault = NoFault | ClockClosed | PinReleased | Mismatch | SlotGone | RevokedPin | ExpiredPin

  /** aa23Live in the order of its tests; a deadline of another clock domain is a clock fault. */
  function Check(slots: seq<Slot>, v: View, pinKey: WireKey, claimed: WireKey, now: Reading): PinFault {
    if v.clock.Observe(now).closed then ClockClosed
    else if v.pin.None? || v.pin.value.key != pinKey then PinReleased
    else if claimed != pinKey then Mismatch
    else if !Resolves(slots, v.pin.value.slot) then SlotGone
    else
      var s := slots[v.pin.value.slot.index];
      if s.state != Published && s.state != Retained then SlotGone
      else if NoteOf(v, v.pin.value.slot).revoked then RevokedPin
      else if now.domain != s.validity.domain then ClockClosed
      else if s.validity.Holds(now) then NoFault
      else ExpiredPin
  }

  lemma LiveIsFaultless(slots: seq<Slot>, v: View, pinKey: WireKey, claimed: WireKey, now: Reading)
    ensures Check(slots, v, pinKey, claimed, now).NoFault? <==> Live(slots, v, pinKey, claimed, now)
  {
  }

  predicate StoredSelects(s: Slot, i: nat, q: Query)
    requires i < |s.entries|
  {
    var e := s.entries[i];
    && (e.any || e.source == q.source) && e.pb == q.pb && e.sb == q.sb && e.requestLen == |q.data|
    && e.requestStart + e.requestLen <= |s.bytes| && s.bytes[e.requestStart..e.requestStart + e.requestLen] == q.data
  }

  /** AA23Match: the first stored entry that answers the query. */
  function MatchFrom(s: Slot, q: Query, i: nat): Option<nat>
    requires i <= |s.entries|
    decreases |s.entries| - i
  {
    if i == |s.entries| then None else if StoredSelects(s, i, q) then Some(i) else MatchFrom(s, q, i + 1)
  }

  function Match(slots: seq<Slot>, v: View, pinKey: WireKey, claimed: WireKey, q: Query, now: Reading): Option<nat> {
    if !Live(slots, v, pinKey, claimed, now) then None
    else
      var s := slots[v.pin.value.slot.index];
      if q.destination != s.identity.key.address || !Address.IsInitiator(q.source) then None else MatchFrom(s, q, 0)
  }

  /** AA23ResponseSymbol: the only way out for response bytes. */
  function Symbol(slots: seq<Slot>, v: View, pinKey: WireKey, claimed: WireKey, entry: nat, offset: nat, phase: Phase, now: Reading): Option<byte> {
    if !Live(slots, v, pinKey, claimed, now) then None
    else
      var s := slots[v.pin.value.slot.index];
      if entry >= |s.entries| || phase != s.entries[entry].phase || offset >= s.entries[entry].replyLen ||
         s.entries[entry].replyStart + offset >= |s.bytes| then None
      else Some(s.bytes[s.entries[entry].replyStart + offset])
  }

  /** Ends the transaction's hold; an observed retirement is acknowledged here. */
  function ReleasePin(slots: seq<Slot>, v: View, pinKey: WireKey): (seq<Slot>, View, Option<Notice>) {
    if v.pin.None? || v.pin.value.key != pinKey then (slots, v, None)
    else
      var ref := v.pin.value.slot;
      var note := NoteOf(v, ref);
      var dropped := SetNote(v, ref, note).(pin := None);
      (Unpin(slots, ref), dropped, if note.superseded || note.revoked then Some(Notice(ref, pinKey.identity)) else None)
  }
}
