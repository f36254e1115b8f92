/** Interleaved producers and consumers on the four lanes of one mapping. */
module LaneRuns {
  import opened Octets
  import opened Envelope
  import opened Layout
  import opened Lanes

  const MAX64 := 0xFFFF_FFFF_FFFF_FFFF

  // ---- Shared bytes ----

  /** Overwrites part of memory. */
  function Splice(mem: seq<byte>, at: nat, bytes: seq<byte>): seq<byte>
    requires at + |bytes| <= |mem|
  {
    mem[..at] + bytes + mem[at + |bytes|..]
  }

  lemma SpliceWritten(mem: seq<byte>, at: nat, bytes: seq<byte>)
    requires at + |bytes| <= |mem|
    ensures |Splice(mem, at, bytes)| == |mem|
    ensures Splice(mem, at, bytes)[at..at + |bytes|] == bytes
  {
  }

  lemma SpliceElsewhere(mem: seq<byte>, at: nat, bytes: seq<byte>, lo: nat, hi: nat)
    requires at + |bytes| <= |mem| && lo <= hi <= |mem| && Disjoint((at, at + |bytes|), (lo, hi))
    ensures |Splice(mem, at, bytes)| == |mem|
    ensures Splice(mem, at, bytes)[lo..hi] == mem[lo..hi]
  {
  }

  function Index(mem: seq<byte>, at: nat): nat
    requires at + 8 <= |mem|
  {
    FromLe(mem[at..at + 8])
  }

  function StoreIndex(mem: seq<byte>, at: nat, x: nat): seq<byte>
    requires at + 8 <= |mem|
  {
    Splice(mem, at, Le(x, 8))
  }

  lemma StoredIndex(mem: seq<byte>, at: nat, x: nat)
    requires at + 8 <= |mem| && x <= MAX64
    ensures |StoreIndex(mem, at, x)| == |mem| && Index(StoreIndex(mem, at, x), at) == x
  {
    hide Le, FromLe, Splice;
    SpliceWritten(mem, at, Le(x, 8));
    assert Pow256(8) == MAX64 + 1;
    WordRoundTrip(x, 8);
  }

  function SlotStart(lane: LaneLayout, index: nat): nat
    requires lane.capacity > 0
  {
    lane.slotOffset + (index % lane.capacity) * lane.slotBytes
  }

  lemma SlotInside(lane: LaneLayout, index: nat)
    requires lane.capacity > 0
    ensures lane.slotOffset <= SlotStart(lane, index)
    ensures SlotStart(lane, index) + lane.slotBytes <= SlotSpan(lane).1
  {
    RowsApart(index % lane.capacity, lane.capacity, lane.slotBytes);
  }

  lemma ResiduesDiffer(a: nat, b: nat, n: nat)
    requires n > 0 && a < b < a + n
    ensures a % n != b % n
  {
    NoMultipleBetween(n, b / n - a / n);
    assert b - a == n * (b / n - a / n) + (b % n - a % n);
  }

  lemma NoMultipleBetween(n: nat, q: int)
    requires n > 0
    ensures n * q <= 0 || n * q >= n
  {
    if q >= 1 {
      assert n * q == n + n * (q - 1);
    }
  }

  lemma RowsApart(x: nat, y: nat, s: nat)
    requires x < y
    ensures x * s + s <= y * s
  {
    assert y * s == (x + 1) * s + (y - x - 1) * s;
  }

  lemma SlotsDiffer(lane: LaneLayout, a: nat, b: nat)
    requires lane.capacity > 0 && a < b < a + lane.capacity
    ensures Disjoint((SlotStart(lane, a), SlotStart(lane, a) + lane.slotBytes),
                     (SlotStart(lane, b), SlotStart(lane, b) + lane.slotBytes))
  {
    ResiduesDiffer(a, b, lane.capacity);
    var x, y, s := a % lane.capacity, b % lane.capacity, lane.slotBytes;
    if x < y {
      RowsApart(x, y, s);
    } else {
      RowsApart(y, x, s);
    }
  }

  // ---- Two endpoints per lane ----

  /**
    written is published; pending is filled but not yet published; seen and head are the last loads
    of the peer's index; held is a peeked record whose slot is not yet released; read is released.
    */
  datatype LaneState = LaneState(
    written: seq<Record>, pending: Option<Record>, seen: nat, head: nat, held: Option<Record>, read: seq<Record>)

  datatype Mapping = Mapping(mem: seq<byte>, lanes: seq<LaneState>)

  datatype Setup = Setup(layout: Layout, limits: Limits) {
    ghost predicate Valid() {
      Sound(layout, limits) && limits.Valid() && layout.total < 0x1_0000_0000
    }
  }

  /** What the endpoints write: accepted records, and no payload on a control lane. */
  predicate Sendable(r: Record, lane: LaneLayout, s: Setup) {
    WriteAccepts(r, lane, s.layout, s.limits) && (IsControlKind(lane.kind) ==> r.payload == [])
  }

  datatype Action =
    | LoadConsumer(lane: nat)
    | Fill(lane: nat, record: Record)
    | PublishIndex(lane: nat)
    | LoadProducer(lane: nat)
    | PeekHead(lane: nat)
    | ReleaseHead(lane: nat)

  function SlotOf(mem: seq<byte>, lane: LaneLayout, index: nat): (slot: seq<byte>)
    requires lane.capacity > 0 && SlotSpan(lane).1 <= |mem|
    ensures |slot| == lane.slotBytes
  {
    SlotInside(lane, index);
    mem[SlotStart(lane, index)..SlotStart(lane, index) + lane.slotBytes]
  }

  /** A mapping and a setup that belong together. */
  ghost predicate Fits(s: Setup, m: Mapping) {
    s.Valid() && |m.mem| == s.layout.total && |m.lanes| == LANES
  }

  function FillSlot(mem: seq<byte>, lane: LaneLayout, index: nat, r: Record): seq<byte>
    requires lane.capacity > 0 && SlotSpan(lane).1 <= |mem| && ENVELOPE_BYTES + |r.payload| <= lane.slotBytes < 0x1_0000_0000
  {
    SlotInside(lane, index);
    EnvelopeRoundTrip(r, lane.slotBytes);
    Splice(mem, SlotStart(lane, index), EncodeSlot(r, lane.slotBytes))
  }

  /** One endpoint step on one lane: the new bytes and the new bookkeeping. */
  function FillStep(s: Setup, mem: seq<byte>, lane: LaneLayout, st: LaneState, r: Record): (seq<byte>, LaneState)
    requires 0 < lane.capacity && SlotSpan(lane).1 <= |mem| && lane.slotBytes < 0x1_0000_0000
  {
    if st.pending.Some? || !Sendable(r, lane, s) || |st.written| - st.seen >= lane.capacity || |st.written| >= MAX64
    then (mem, st)
    else (FillSlot(mem, lane, |st.written|, r), st.(pending := Some(r)))
  }

  function PublishStep(mem: seq<byte>, lane: LaneLayout, st: LaneState): (seq<byte>, LaneState)
    requires lane.producerOffset + 8 <= |mem|
  {
    if st.pending.None? then (mem, st)
    else (StoreIndex(mem, lane.producerOffset, |st.written| + 1),
          st.(written := st.written + [st.pending.value], pending := None))
  }

  function Keep(st: LaneState, found: Peeked): LaneState {
    if found.Refused? then st else st.(held := Some(found.record))
  }

  function PeekStep(s: Setup, mem: seq<byte>, lane: LaneLayout, st: LaneState): LaneState
    requires 0 < lane.capacity && SlotSpan(lane).1 <= |mem| && ENVELOPE_BYTES <= lane.slotBytes
  {
    if |st.read| >= st.head || st.held.Some? then st
    else Keep(st, PeekSlot(SlotOf(mem, lane, |st.read|), lane, s.layout, s.limits, s.limits.maxPayload))
  }

  function ReleaseStep(mem: seq<byte>, lane: LaneLayout, st: LaneState): (seq<byte>, LaneState)
    requires lane.consumerOffset + 8 <= |mem|
  {
    if st.held.None? then (mem, st)
    else (StoreIndex(mem, lane.consumerOffset, |st.read| + 1), st.(read := st.read + [st.held.value], held := None))
  }

  ghost predicate Inside(s: Setup, mem: seq<byte>, lane: LaneLayout) {
    s.Valid() && |mem| == s.layout.total && LaneInside(s.layout, lane, s.limits)
  }

  ghost function LaneNext(s: Setup, mem: seq<byte>, lane: LaneLayout, st: LaneState, a: Action): (seq<byte>, LaneState)
    requires Inside(s, mem, lane)
  {
    LaneFacts(s, mem, lane);
    match a
    case LoadConsumer(_) => (mem, st.(seen := Index(mem, lane.consumerOffset)))
    case Fill(_, record) => FillStep(s, mem, lane, st, record)
    case PublishIndex(_) => PublishStep(mem, lane, st)
    case LoadProducer(_) => (mem, st.(head := Index(mem, lane.producerOffset)))
    case PeekHead(_) => (mem, PeekStep(s, mem, lane, st))
    case ReleaseHead(_) => ReleaseStep(mem, lane, st)
  }

  lemma LaneFacts(s: Setup, mem: seq<byte>, lane: LaneLayout)
    requires Inside(s, mem, lane)
    ensures 0 < lane.capacity && SlotSpan(lane).1 <= |mem| && ENVELOPE_BYTES <= lane.slotBytes < 0x1_0000_0000
    ensures lane.consumerOffset == lane.producerOffset + 8 && lane.consumerOffset + 8 <= |mem|
    ensures Disjoint(SlotSpan(lane), (lane.producerOffset, lane.consumerOffset + 8))
  {
  }

  ghost function Next(s: Setup, m: Mapping, a: Action): Mapping
    requires Fits(s, m)
  {
    if a.lane >= LANES then m
    else
      var (mem, st) := LaneNext(s, m.mem, s.layout.lanes[a.lane], m.lanes[a.lane], a);
      Mapping(mem, m.lanes[a.lane := st])
  }

  // ---- The invariant of one lane ----

  ghost predicate Words(mem: seq<byte>, lane: LaneLayout, st: LaneState)
    requires lane.producerOffset + 8 <= |mem| && lane.consumerOffset + 8 <= |mem|
  {
    && Index(mem, lane.producerOffset) == |st.written| <= MAX64
    && Index(mem, lane.consumerOffset) == |st.read|
    && st.seen <= |st.read| <= st.head <= |st.written|
    && |st.written| - st.seen <= lane.capacity
    && (st.pending.Some? ==> |st.written| - st.seen < lane.capacity && |st.written| < MAX64)
  }

  ghost predicate Holds(mem: seq<byte>, lane: LaneLayout, index: nat, r: Record, s: Setup)
    requires lane.capacity > 0 && SlotSpan(lane).1 <= |mem| && lane.slotBytes < 0x1_0000_0000
  {
    Sendable(r, lane, s) && ENVELOPE_BYTES + |r.payload| <= lane.slotBytes &&
    SlotOf(mem, lane, index) == EncodeSlot(r, lane.slotBytes)
  }

  /** Every unread record, and the one being written, lies whole in its own slot. */
  ghost predicate Slots(mem: seq<byte>, lane: LaneLayout, st: LaneState, s: Setup)
    requires lane.capacity > 0 && SlotSpan(lane).1 <= |mem| && lane.slotBytes < 0x1_0000_0000
  {
    && (forall j :: |st.read| <= j < |st.written| ==> Holds(mem, lane, j, st.written[j], s))
    && (st.pending.Some? ==> Holds(mem, lane, |st.written|, st.pending.value, s))
  }

  ghost predicate Prefix(st: LaneState) {
    && st.read <= st.written
    && (st.held.Some? ==> |st.read| < st.head && |st.read| < |st.written| && st.held.value == st.written[|st.read|])
  }

  ghost predicate LaneSound(mem: seq<byte>, lane: LaneLayout, st: LaneState, s: Setup)
    requires s.Valid() && |mem| == s.layout.total && LaneInside(s.layout, lane, s.limits)
  {
    Words(mem, lane, st) && Slots(mem, lane, st, s) && Prefix(st)
  }

  ghost predicate Inv(s: Setup, m: Mapping) {
    && Fits(s, m)
    && forall k :: 0 <= k < LANES ==> LaneSound(m.mem, s.layout.lanes[k], m.lanes[k], s)
  }

  // ---- One lane keeps its own invariant ----

  lemma HoldsElsewhere(mem: seq<byte>, at: nat, bytes: seq<byte>, lane: LaneLayout, j: nat, r: Record, s: Setup)
    requires lane.capacity > 0 && SlotSpan(lane).1 <= |mem| && lane.slotBytes < 0x1_0000_0000
    requires at + |bytes| <= |mem|
    requires Disjoint((at, at + |bytes|), (SlotStart(lane, j), SlotStart(lane, j) + lane.slotBytes))
    requires Holds(mem, lane, j, r, s)
    ensures |Splice(mem, at, bytes)| == |mem| && Holds(Splice(mem, at, bytes), lane, j, r, s)
  {
    hide Splice, EncodeSlot, Sendable;
    SlotInside(lane, j);
    SpliceElsewhere(mem, at, bytes, SlotStart(lane, j), SlotStart(lane, j) + lane.slotBytes);
  }

  /** Writing outside a lane's slots leaves all its records whole. */
  lemma SlotsUntouched(mem: seq<byte>, at: nat, bytes: seq<byte>, lane: LaneLayout, st: LaneState, s: Setup)
    requires lane.capacity > 0 && SlotSpan(lane).1 <= |mem| && lane.slotBytes < 0x1_0000_0000
    requires at + |bytes| <= |mem| && Disjoint((at, at + |bytes|), SlotSpan(lane))
    requires Slots(mem, lane, st, s)
    ensures |Splice(mem, at, bytes)| == |mem| && Slots(Splice(mem, at, bytes), lane, st, s)
  {
    hide Splice, Holds;
    SpliceLength(mem, at, bytes);
    forall j | |st.read| <= j < |st.written|
      ensures Holds(Splice(mem, at, bytes), lane, j, st.written[j], s)
    {
      SlotInside(lane, j);
      HoldsElsewhere(mem, at, bytes, lane, j, st.written[j], s);
    }
    if st.pending.Some? {
      SlotInside(lane, |st.written|);
      HoldsElsewhere(mem, at, bytes, lane, |st.written|, st.pending.value, s);
    }
  }

  lemma SpliceLength(mem: seq<byte>, at: nat, bytes: seq<byte>)
    requires at + |bytes| <= |mem|
    ensures |Splice(mem, at, bytes)| == |mem|
  {
  }

  lemma IndexElsewhere(mem: seq<byte>, at: nat, bytes: seq<byte>, word: nat)
    requires at + |bytes| <= |mem| && word + 8 <= |mem| && Disjoint((at, at + |bytes|), (word, word + 8))
    ensures |Splice(mem, at, bytes)| == |mem| && Index(Splice(mem, at, bytes), word) == Index(mem, word)
  {
    hide Splice, FromLe;
    SpliceElsewhere(mem, at, bytes, word, word + 8);
  }

  lemma FillKeepsSlots(s: Setup, mem: seq<byte>, lane: LaneLayout, st: LaneState, r: Record)
    requires lane.capacity > 0 && SlotSpan(lane).1 <= |mem| && ENVELOPE_BYTES <= lane.slotBytes < 0x1_0000_0000
    requires Slots(mem, lane, st, s) && Sendable(r, lane, s) && |st.written| < |st.read| + lane.capacity
    ensures var mem' := FillSlot(mem, lane, |st.written|, r);
            |mem'| == |mem| && Slots(mem', lane, st.(pending := Some(r)), s)
  {
    hide Splice, EncodeSlot, Sendable, Holds;
    PayloadFits(r, lane, s);
    EnvelopeRoundTrip(r, lane.slotBytes);
    SlotInside(lane, |st.written|);
    HoldsFilled(mem, lane, |st.written|, r, s);
    forall j | |st.read| <= j < |st.written|
      ensures Holds(FillSlot(mem, lane, |st.written|, r), lane, j, st.written[j], s)
    {
      SlotsDiffer(lane, j, |st.written|);
      HoldsElsewhere(mem, SlotStart(lane, |st.written|), EncodeSlot(r, lane.slotBytes), lane, j, st.written[j], s);
    }
  }

  lemma PayloadFits(r: Record, lane: LaneLayout, s: Setup)
    requires ENVELOPE_BYTES <= lane.slotBytes && Sendable(r, lane, s)
    ensures ENVELOPE_BYTES + |r.payload| <= lane.slotBytes && |r.payload| <= s.limits.maxPayload
  {
  }

  lemma FillKeeps(s: Setup, mem: seq<byte>, lane: LaneLayout, st: LaneState, r: Record)
    requires Inside(s, mem, lane) && LaneSound(mem, lane, st, s)
    ensures var (mem', st') := FillStep(s, mem, lane, st, r);
            |mem'| == |mem| && LaneSound(mem', lane, st', s)
  {
    hide Splice, EncodeSlot, Sendable, Holds, Index, Slots;
    LaneFacts(s, mem, lane);
    if st.pending.None? && Sendable(r, lane, s) && |st.written| - st.seen < lane.capacity && |st.written| < MAX64 {
      PayloadFits(r, lane, s);
      EnvelopeRoundTrip(r, lane.slotBytes);
      SlotInside(lane, |st.written|);
      var at, bytes := SlotStart(lane, |st.written|), EncodeSlot(r, lane.slotBytes);
      IndexElsewhere(mem, at, bytes, lane.producerOffset);
      IndexElsewhere(mem, at, bytes, lane.consumerOffset);
      FillKeepsSlots(s, mem, lane, st, r);
    }
  }

  lemma HoldsFilled(mem: seq<byte>, lane: LaneLayout, index: nat, r: Record, s: Setup)
    requires lane.capacity > 0 && SlotSpan(lane).1 <= |mem| && lane.slotBytes < 0x1_0000_0000
    requires ENVELOPE_BYTES + |r.payload| <= lane.slotBytes && Sendable(r, lane, s)
    ensures |FillSlot(mem, lane, index, r)| == |mem| && Holds(FillSlot(mem, lane, index, r), lane, index, r, s)
  {
    hide Splice, EncodeSlot, Sendable;
    SlotInside(lane, index);
    EnvelopeRoundTrip(r, lane.slotBytes);
    SpliceWritten(mem, SlotStart(lane, index), EncodeSlot(r, lane.slotBytes));
  }

  lemma PublishKeeps(s: Setup, mem: seq<byte>, lane: LaneLayout, st: LaneState)
    requires Inside(s, mem, lane) && LaneSound(mem, lane, st, s)
    ensures var (mem', st') := PublishStep(mem, lane, st);
            |mem'| == |mem| && LaneSound(mem', lane, st', s)
  {
    hide Splice, Holds, Index;
    LaneFacts(s, mem, lane);
    if st.pending.Some? {
      var bytes := Le(|st.written| + 1, 8);
      StoredIndex(mem, lane.producerOffset, |st.written| + 1);
      IndexElsewhere(mem, lane.producerOffset, bytes, lane.consumerOffset);
      SlotsUntouched(mem, lane.producerOffset, bytes, lane, st, s);
    }
  }

  lemma ReleaseKeeps(s: Setup, mem: seq<byte>, lane: LaneLayout, st: LaneState)
    requires Inside(s, mem, lane) && LaneSound(mem, lane, st, s)
    ensures var (mem', st') := ReleaseStep(mem, lane, st);
            |mem'| == |mem| && LaneSound(mem', lane, st', s)
  {
    hide Splice, Holds, Index;
    LaneFacts(s, mem, lane);
    if st.held.Some? {
      var bytes := Le(|st.read| + 1, 8);
      StoredIndex(mem, lane.consumerOffset, |st.read| + 1);
      IndexElsewhere(mem, lane.consumerOffset, bytes, lane.producerOffset);
      SlotsUntouched(mem, lane.consumerOffset, bytes, lane, st, s);
    }
  }

  /** A peek of an owned slot never fails: it returns the oldest unread record, field for field. */
  lemma PeekFindsOldest(s: Setup, mem: seq<byte>, lane: LaneLayout, st: LaneState)
    requires Inside(s, mem, lane) && LaneSound(mem, lane, st, s) && |st.read| < st.head
    ensures PeekSlot(SlotOf(mem, lane, |st.read|), lane, s.layout, s.limits, s.limits.maxPayload) ==
            Found(st.written[|st.read|])
  {
    hide PeekSlot, EncodeSlot, SlotOf;
    LaneFacts(s, mem, lane);
    var r := st.written[|st.read|];
    assert Holds(mem, lane, |st.read|, r, s);
    PayloadFits(r, lane, s);
    PeekReturnsWritten(r, lane, s.layout, s.limits, s.limits.maxPayload);
  }

  lemma PeekKeeps(s: Setup, mem: seq<byte>, lane: LaneLayout, st: LaneState)
    requires Inside(s, mem, lane) && LaneSound(mem, lane, st, s)
    ensures LaneSound(mem, lane, PeekStep(s, mem, lane, st), s)
  {
    hide PeekSlot, EncodeSlot, SlotOf, Holds, Index;
    LaneFacts(s, mem, lane);
    if |st.read| < st.head {
      PeekFindsOldest(s, mem, lane, st);
    }
  }

  /** Every step of either endpoint keeps its own lane sound. */
  lemma LaneKeeps(s: Setup, mem: seq<byte>, lane: LaneLayout, st: LaneState, a: Action)
    requires Inside(s, mem, lane) && LaneSound(mem, lane, st, s)
    ensures var (mem', st') := LaneNext(s, mem, lane, st, a);
            |mem'| == |mem| && LaneSound(mem', lane, st', s)
  {
    hide FillStep, PublishStep, PeekStep, ReleaseStep, Index, Holds;
    match a
    case Fill(_, record) => FillKeeps(s, mem, lane, st, record);
    case PublishIndex(_) => PublishKeeps(s, mem, lane, st);
    case PeekHead(_) => PeekKeeps(s, mem, lane, st);
    case ReleaseHead(_) => ReleaseKeeps(s, mem, lane, st);
    case LoadConsumer(_) =>
    case LoadProducer(_) =>
  }

  // ---- Lanes do not disturb each other ----

  /** The bytes a lane owns: its slots and its two index words. */
  ghost predicate SameLaneBytes(a: seq<byte>, b: seq<byte>, lane: LaneLayout)
    requires SlotSpan(lane).1 <= |a| == |b| && lane.producerOffset + 8 <= |a| && lane.consumerOffset + 8 <= |a|
  {
    && a[lane.slotOffset..SlotSpan(lane).1] == b[lane.slotOffset..SlotSpan(lane).1]
    && Index(a, lane.producerOffset) == Index(b, lane.producerOffset)
    && Index(a, lane.consumerOffset) == Index(b, lane.consumerOffset)
  }

  lemma SpliceSparesLane(s: Setup, mem: seq<byte>, at: nat, bytes: seq<byte>, other: LaneLayout)
    requires Inside(s, mem, other) && at + |bytes| <= |mem|
    requires Disjoint((at, at + |bytes|), SlotSpan(other))
    requires Disjoint((at, at + |bytes|), (other.producerOffset, other.consumerOffset + 8))
    ensures |Splice(mem, at, bytes)| == |mem| && SameLaneBytes(mem, Splice(mem, at, bytes), other)
  {
    hide Splice, Index;
    LaneFacts(s, mem, other);
    SpliceElsewhere(mem, at, bytes, other.slotOffset, SlotSpan(other).1);
    IndexElsewhere(mem, at, bytes, other.producerOffset);
    IndexElsewhere(mem, at, bytes, other.consumerOffset);
  }

  /** No step on one lane changes a slot or an index of another. */
  lemma StepSparesLane(s: Setup, mem: seq<byte>, lane: LaneLayout, st: LaneState, a: Action, other: LaneLayout)
    requires Inside(s, mem, lane) && Inside(s, mem, other) && Apart(lane, other)
    ensures var mem' := LaneNext(s, mem, lane, st, a).0;
            |mem'| == |mem| && SameLaneBytes(mem, mem', other)
  {
    hide Splice, Index, EncodeSlot, PeekStep, Sendable, Le;
    LaneFacts(s, mem, lane);
    LaneFacts(s, mem, other);
    match a
    case Fill(_, r) =>
      if Sendable(r, lane, s) {
        PayloadFits(r, lane, s);
        EnvelopeRoundTrip(r, lane.slotBytes);
        SlotInside(lane, |st.written|);
        SpliceSparesLane(s, mem, SlotStart(lane, |st.written|), EncodeSlot(r, lane.slotBytes), other);
      }
    case PublishIndex(_) => SpliceSparesLane(s, mem, lane.producerOffset, Le(|st.written| + 1, 8), other);
    case ReleaseHead(_) => SpliceSparesLane(s, mem, lane.consumerOffset, Le(|st.read| + 1, 8), other);
    case _ =>
  }

  lemma SameSlot(a: seq<byte>, b: seq<byte>, lane: LaneLayout, j: nat)
    requires lane.capacity > 0 && SlotSpan(lane).1 <= |a| == |b|
    requires a[lane.slotOffset..SlotSpan(lane).1] == b[lane.slotOffset..SlotSpan(lane).1]
    ensures SlotOf(a, lane, j) == SlotOf(b, lane, j)
  {
    SlotInside(lane, j);
    var start := SlotStart(lane, j);
    SubSlice(a, lane.slotOffset, SlotSpan(lane).1, start, start + lane.slotBytes);
    SubSlice(b, lane.slotOffset, SlotSpan(lane).1, start, start + lane.slotBytes);
  }

  lemma SpareLaneStaysSound(s: Setup, a: seq<byte>, b: seq<byte>, lane: LaneLayout, st: LaneState)
    requires Inside(s, a, lane) && |a| == |b| && LaneSound(a, lane, st, s)
    requires SlotSpan(lane).1 <= |a| && lane.producerOffset + 8 <= |a| && lane.consumerOffset + 8 <= |a|
    requires SameLaneBytes(a, b, lane)
    ensures LaneSound(b, lane, st, s)
  {
    hide SlotOf, EncodeSlot, Sendable, Index;
    LaneFacts(s, a, lane);
    forall j | |st.read| <= j < |st.written|
      ensures Holds(b, lane, j, st.written[j], s)
    {
      assert Holds(a, lane, j, st.written[j], s);
      SameSlot(a, b, lane, j);
    }
    SameSlot(a, b, lane, |st.written|);
  }

  // ---- Runs ----

  lemma StepKeeps(s: Setup, m: Mapping, a: Action)
    requires Inv(s, m)
    ensures Inv(s, Next(s, m, a))
  {
    hide LaneSound, LaneNext, LaneInside, Apart;
    if a.lane < LANES {
      var lane, st := s.layout.lanes[a.lane], m.lanes[a.lane];
      LaneKeeps(s, m.mem, lane, st, a);
      forall k | 0 <= k < LANES && k != a.lane
        ensures LaneSound(Next(s, m, a).mem, s.layout.lanes[k], m.lanes[k], s)
      {
        var other := s.layout.lanes[k];
        ApartBothWays(s.layout.lanes[if k < a.lane then k else a.lane], s.layout.lanes[if k < a.lane then a.lane else k]);
        StepSparesLane(s, m.mem, lane, st, a, other);
        LaneFacts(s, m.mem, other);
        SpareLaneStaysSound(s, m.mem, Next(s, m, a).mem, other, m.lanes[k]);
      }
    }
  }

  lemma ApartBothWays(a: LaneLayout, b: LaneLayout)
    requires Apart(a, b)
    ensures Apart(b, a)
  {
  }

  function Blank(): LaneState {
    LaneState([], None, 0, 0, None, [])
  }

  ghost predicate Reaches(s: Setup, start: Mapping, actions: seq<Action>, m: Mapping) {
    if actions == [] then m == start
    else exists before: Mapping :: Reaches(s, start, actions[..|actions| - 1], before) && Fits(s, before) &&
           m == Next(s, before, actions[|actions| - 1])
  }

  lemma {:induction false} RunKeeps(s: Setup, start: Mapping, actions: seq<Action>, m: Mapping)
    requires Inv(s, start) && Reaches(s, start, actions, m)
    ensures Inv(s, m)
    decreases |actions|
  {
    hide Inv, Next;
    if actions != [] {
      var before: Mapping :| Reaches(s, start, actions[..|actions| - 1], before) && Fits(s, before) &&
           m == Next(s, before, actions[|actions| - 1]);
      RunKeeps(s, start, actions[..|actions| - 1], before);
      StepKeeps(s, before, actions[|actions| - 1]);
    }
  }

  /** A mapping the validator has just accepted starts with four empty, sound lanes. */
  lemma FreshMappingSound(mem: seq<byte>, baseAligned: bool, e: Expected, l: Layout)
    requires Regular(mem, baseAligned, e) && Describes(mem, l)
    ensures Inv(Setup(l, e.limits), Mapping(mem, [Blank(), Blank(), Blank(), Blank()]))
  {
    hide LaneInside, Apart, LaneAt, DescriptorOk, Sound;
    AcceptedIsSound(mem, baseAligned, e, l);
    var s := Setup(l, e.limits);
    forall k | 0 <= k < LANES
      ensures LaneInside(l, l.lanes[k], e.limits) && LaneSound(mem, l.lanes[k], Blank(), s)
    {
      FreshLaneSound(mem, baseAligned, e, l, k);
    }
  }

  lemma FreshLaneSound(mem: seq<byte>, baseAligned: bool, e: Expected, l: Layout, k: nat)
    requires Regular(mem, baseAligned, e) && Describes(mem, l) && k < LANES
    ensures |l.lanes| == LANES && Setup(l, e.limits).Valid() && l.total == |mem|
    ensures LaneInside(l, l.lanes[k], e.limits)
    ensures LaneSound(mem, l.lanes[k], Blank(), Setup(l, e.limits))
  {
    hide LaneInside, Apart, DescriptorOk, Uint64;
    AcceptedIsSound(mem, baseAligned, e, l);
    var i := DescriptorOfKind(mem, l, k + 1);
    var lane := Lane(mem, HeaderLayout(mem), i);
    assert l.lanes[k] == lane;
    assert DescriptorOk(mem, DescriptorAt(HeaderLayout(mem), i), e.limits);
    LaneFacts(Setup(l, e.limits), mem, lane);
    ZeroIndices(mem, DescriptorAt(HeaderLayout(mem), i), e.limits);
  }

  lemma ZeroIndices(mem: seq<byte>, at: nat, limits: Limits)
    requires at + DESCRIPTOR_BYTES <= |mem| && DescriptorOk(mem, at, limits)
    ensures Index(mem, at + 24) == 0 && Index(mem, at + 32) == 0
  {
  }

  /**
    Over any mapping the validator accepts, in every interleaving and on every lane: the records
    read are a prefix of the records written, field for field; at most `capacity` are in flight; and
    every unread record is still whole in its slot.
    */
  lemma LaneIsBoundedFifo(mem: seq<byte>, baseAligned: bool, e: Expected, l: Layout, actions: seq<Action>, m: Mapping, k: nat)
    requires Regular(mem, baseAligned, e) && Describes(mem, l) && k < LANES
    requires Reaches(Setup(l, e.limits), Mapping(mem, [Blank(), Blank(), Blank(), Blank()]), actions, m)
    ensures |m.lanes| == |l.lanes| == LANES && m.lanes[k].read <= m.lanes[k].written
    ensures |m.lanes[k].written| - |m.lanes[k].read| <= l.lanes[k].capacity
    ensures Inside(Setup(l, e.limits), m.mem, l.lanes[k])
    ensures forall j :: |m.lanes[k].read| <= j < |m.lanes[k].written| ==>
              Holds(m.mem, l.lanes[k], j, m.lanes[k].written[j], Setup(l, e.limits))
  {
    hide Regular, Describes, Next;
    var s, start := Setup(l, e.limits), Mapping(mem, [Blank(), Blank(), Blank(), Blank()]);
    FreshMappingSound(mem, baseAligned, e, l);
    RunKeeps(s, start, actions, m);
    assert LaneSound(m.mem, l.lanes[k], m.lanes[k], s);
  }
}
