/**
  SPSC lanes over one shared byte string. Fill, publish, load, peek and release are separate steps
  of two endpoints that interleave freely; each lane still behaves as a bounded FIFO, and the four
  lanes never disturb each other.
  */
module Lanes {
  import opened Octets
  import opened Envelope
  import opened Layout
  import Address

  // ---- Record shapes ----

  datatype Kind = Unknown | Publish | Revoke | Acknowledge | Gap | Stop | Command | Raw | Completion

  function KindOf(k: u32): Kind {
    match k
    case 1 => Publish case 2 => Revoke case 3 => Acknowledge case 4 => Gap
    case 5 => Stop case 6 => Command case 7 => Raw case 8 => Completion
    case _ => Unknown
  }

  const COMPLETION: u32 := 8

  predicate KindOnLane(kind: Kind, lane: nat) {
    match lane
    case 1 => kind == Publish || kind == Revoke || kind == Stop
    case 2 => kind == Acknowledge || kind == Gap
    case 3 => kind == Command
    case 4 => kind == Raw || kind == Completion
    case _ => false
  }

  /** A plan reference stays inside the arena, past the build identity. */
  predicate ArenaInBounds(r: Record, l: Layout) {
    && r.planBytes != 0
    && r.arenaOffset + r.planBytes < 0x1_0000_0000_0000_0000
    && l.arena + BUILD_BYTES <= r.arenaOffset
    && r.arenaOffset + r.planBytes <= l.arena + l.arenaBytes
  }

  predicate RegistrationFull(r: Record) { r.subscriber != 0 && Address.IsTarget(r.target) && r.epoch != 0 }
  predicate RegistrationZero(r: Record) { r.subscriber == 0 && r.target == 0 && r.epoch == 0 }
  predicate PlanFull(r: Record) { r.plan != 0 && r.planExpiry != 0 }
  predicate PlanZero(r: Record) { r.plan == 0 && r.planExpiry == 0 }
  predicate OwnerFull(r: Record) { r.transaction != 0 && r.token != 0 && r.ownerExpiry != 0 && r.requestDeadline != 0 }
  predicate TokenZero(r: Record) { r.token == 0 && r.ownerExpiry == 0 && r.requestDeadline == 0 }
  predicate OwnerZero(r: Record) { r.transaction == 0 && TokenZero(r) }
  predicate CaptureFull(r: Record) { r.captureSequence != 0 && r.captureTime != 0 }
  predicate CaptureZero(r: Record) { r.captureSequence == 0 && r.captureTime == 0 }
  predicate ArenaZero(r: Record) { r.arenaOffset == 0 && r.planBytes == 0 }
  predicate ControlPlain(r: Record) { r.direction == 0 && r.rawOctet == 0 }

  /** aa24Shape: the fields a kind uses are set and the others are zero. */
  predicate Shape(r: Record, lane: nat, l: Layout) {
    && KindOnLane(KindOf(r.kind), lane)
    && r.flags == 0 && r.worker != 0 && r.stream != 0 && r.status <= 3 && r.direction <= 2 && r.phase <= 5
    && match KindOf(r.kind) {
         case Publish =>
           RegistrationFull(r) && PlanFull(r) && OwnerZero(r) && CaptureZero(r) && ControlPlain(r) && r.status == 0 &&
           r.phase == 0 && ArenaInBounds(r, l)
         case Revoke =>
           RegistrationFull(r) && PlanFull(r) && OwnerZero(r) && CaptureZero(r) && ArenaZero(r) && ControlPlain(r) &&
           r.status == 0 && r.phase == 0
         case Acknowledge =>
           RegistrationFull(r) && PlanFull(r) && OwnerZero(r) && CaptureFull(r) && ArenaZero(r) && ControlPlain(r) &&
           r.status == 3 && r.phase == 0
         case Gap =>
           RegistrationZero(r) && PlanZero(r) && OwnerZero(r) && CaptureFull(r) && ArenaZero(r) && ControlPlain(r) &&
           r.status == 0 && r.phase == 0
         case Stop =>
           RegistrationZero(r) && PlanZero(r) && OwnerZero(r) && CaptureZero(r) && ArenaZero(r) && ControlPlain(r) &&
           r.status == 0 && r.phase == 0
         case Command =>
           RegistrationFull(r) && PlanFull(r) && OwnerFull(r) && CaptureZero(r) && ArenaZero(r) && ControlPlain(r) &&
           r.status == 0 && r.phase == 0
         case Raw =>
           && ((RegistrationFull(r) && PlanFull(r) && OwnerFull(r)) ||
               (RegistrationZero(r) && PlanZero(r) && TokenZero(r) && r.transaction != 0))
           && CaptureFull(r) && ArenaZero(r) && r.status == 0 && r.direction != 0 && r.payload == []
         case Completion =>
           RegistrationFull(r) && PlanFull(r) && OwnerFull(r) && CaptureFull(r) && ArenaZero(r) && ControlPlain(r) &&
           r.phase == 0 && r.payload == [] && r.status != 0
         case Unknown => false
       }
  }

  // ---- One slot ----

  datatype Fault = Truncated | Malformed | Oversize | BufferTooSmall

  datatype Peeked = Found(record: Record) | Refused(fault: Fault)

  function PayloadCap(lane: LaneLayout, limits: Limits): int {
    if lane.slotBytes - ENVELOPE_BYTES > limits.maxPayload then limits.maxPayload else lane.slotBytes - ENVELOPE_BYTES
  }

  /** What aa24Write demands of a record before it looks for room. */
  predicate WriteAccepts(r: Record, lane: LaneLayout, l: Layout, limits: Limits) {
    |r.payload| <= PayloadCap(lane, limits) && Shape(r, lane.kind, l)
  }

  /** aa24Peek, once a slot is known to be owned: a whole detached copy is validated. */
  function PeekSlot(slot: seq<byte>, lane: LaneLayout, l: Layout, limits: Limits, room: nat): Peeked
    requires |slot| == lane.slotBytes >= ENVELOPE_BYTES
  {
    var n := Uint32(slot, 4);
    if n > lane.slotBytes - ENVELOPE_BYTES then Refused(Truncated)
    else if n != 0 && IsControlKind(lane.kind) then Refused(Malformed)
    else if n != 0 && Uint32(slot, 0) == COMPLETION then Refused(Malformed)
    else if n > PayloadCap(lane, limits) then Refused(Oversize)
    else if n > room then Refused(BufferTooSmall)
    else if exists i :: ENVELOPE_BYTES + n <= i < |slot| && slot[i] != 0 then Refused(Malformed)
    else
      var record := DecodeEnvelope(slot, slot[ENVELOPE_BYTES..ENVELOPE_BYTES + n]);
      if Shape(record, lane.kind, l) then Found(record) else Refused(Malformed)
  }

  /**
    A record the writer accepted is read back field for field exactly when it fits the reader's
    buffer and a control lane record carries no payload: the writer does not refuse a control
    payload, the reader does.
    */
  lemma PeekReturnsWritten(r: Record, lane: LaneLayout, l: Layout, limits: Limits, room: nat)
    requires ENVELOPE_BYTES <= lane.slotBytes < 0x1_0000_0000 && WriteAccepts(r, lane, l, limits)
    ensures |EncodeSlot(r, lane.slotBytes)| == lane.slotBytes
    ensures PeekSlot(EncodeSlot(r, lane.slotBytes), lane, l, limits, room) == Found(r) <==>
            |r.payload| <= room && (IsControlKind(lane.kind) ==> r.payload == [])
  {
    hide EncodeSlot, DecodeEnvelope;
    EnvelopeRoundTrip(r, lane.slotBytes);
    EncodedSlotShape(r, lane.slotBytes);
    EncodedKind(r, lane.slotBytes);
  }

  lemma EncodedKind(r: Record, slotBytes: nat)
    requires ENVELOPE_BYTES + |r.payload| <= slotBytes < 0x1_0000_0000
    ensures |EncodeSlot(r, slotBytes)| == slotBytes && Uint32(EncodeSlot(r, slotBytes), 0) == r.kind
  {
    hide EncodeSlot, Uint32;
    RoundTripHead(r, slotBytes);
  }

  /** Every control record the writer accepts with a payload is refused by every reader, whatever its buffer. */
  lemma ControlPayloadStaysUnread(r: Record, lane: LaneLayout, l: Layout, limits: Limits, room: nat)
    requires ENVELOPE_BYTES <= lane.slotBytes < 0x1_0000_0000 && WriteAccepts(r, lane, l, limits)
    requires IsControlKind(lane.kind) && r.payload != []
    ensures |EncodeSlot(r, lane.slotBytes)| == lane.slotBytes
    ensures PeekSlot(EncodeSlot(r, lane.slotBytes), lane, l, limits, room) == Refused(Malformed)
  {
    hide EncodeSlot, DecodeEnvelope;
    EncodedSlotShape(r, lane.slotBytes);
    RoundTripHead(r, lane.slotBytes);
  }

  /** There are such records: a stop with one byte of payload fits any control lane with room for it. */
  lemma ControlPayloadAccepted(lane: LaneLayout, l: Layout, limits: Limits) returns (r: Record)
    requires lane.kind == 1 && PayloadCap(lane, limits) >= 1
    ensures WriteAccepts(r, lane, l, limits) && r.payload != []
  {
    r := Record(5, 1, 1, 0, 0, 0, 0, 0, 0, 0, 0, 0, 0, 0, 0, 0, 0, 0, 0, 0, 0, [0]);
  }
}
