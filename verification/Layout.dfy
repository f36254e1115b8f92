/** The layout validator of the shared-memory link: what it reads, and what an accepted layout promises. */
module Layout {
  import opened Octets
  import opened Envelope

  const HEADER_BYTES := 64
  const DESCRIPTOR_BYTES := 64
  const BUILD_BYTES := 32
  const LANES := 4
  const MAGIC: seq<byte> := [0x4C, 0x57, 0x42, 0x31]
  const ABI_VERSION := 1
  const CAPACITY_CEILING := 0x10_0000
  const TABLE_CEILING := 0x1_0000
  const RESERVED_SLOTS := 1

  /** Lane kinds: host control, worker control, host data, worker data. */
  predicate IsControlKind(kind: nat) {
    kind == 1 || kind == 2
  }

  datatype Limits = Limits(
    maxMapping: u32, maxSlot: u32, maxCapacity: u32, maxPayload: u32, maxArena: u64,
    maxPlans: u32, maxOutstanding: u32, serviceTicks: u64)
  {
    predicate Valid() {
      && maxMapping != 0 && maxCapacity != 0 && maxPayload != 0 && maxArena != 0
      && maxPlans != 0 && maxOutstanding != 0 && serviceTicks != 0
      && maxSlot >= ENVELOPE_BYTES && maxPayload <= maxSlot - ENVELOPE_BYTES
      && maxCapacity <= CAPACITY_CEILING && maxPlans <= TABLE_CEILING && maxOutstanding <= TABLE_CEILING
    }
  }

  datatype Expected = Expected(build: seq<byte>, worker: u64, stream: u64, mappingBytes: u32, limits: Limits) {
    predicate BuildNamed() {
      |build| == BUILD_BYTES && build != Zeros(BUILD_BYTES)
    }
  }

  datatype LaneLayout = LaneLayout(
    kind: nat, slotBytes: nat, capacity: nat, slotOffset: nat, producerOffset: nat, consumerOffset: nat)

  datatype Layout = Layout(total: nat, descriptors: nat, arena: nat, arenaBytes: nat, lanes: seq<LaneLayout>)

  datatype Error =
    | InvalidLimits | BuildMismatch | IdentityMismatch | Misaligned | MappingSize | AbiMismatch
    | OutOfBounds | BadLane | ReservedNotZero | BadIndex | Overlapping

  datatype Result<T> = Ok(value: T) | Err(error: Error)

  predicate Aligned(offset: nat) {
    offset % 8 == 0
  }

  // ---- What the validator looks at ----

  /** aa24CheckLane. */
  predicate LaneSizesOk(kind: nat, slotBytes: nat, capacity: nat, limits: Limits) {
    && ENVELOPE_BYTES <= slotBytes <= limits.maxSlot && Aligned(slotBytes)
    && 0 < capacity <= limits.maxCapacity
    && (IsControlKind(kind) ==> capacity > RESERVED_SLOTS)
  }

  /** The lane that the descriptor at an offset describes. */
  function LaneAt(mem: seq<byte>, at: nat): LaneLayout
    requires at + DESCRIPTOR_BYTES <= |mem|
  {
    LaneLayout(Uint32(mem, at), Uint32(mem, at + 4), Uint32(mem, at + 8), Uint64(mem, at + 16), at + 24, at + 32)
  }

  /** A fresh, well-formed descriptor: known kind, zero reserved bytes, sane sizes, zero indices. */
  predicate DescriptorOk(mem: seq<byte>, at: nat, limits: Limits)
    requires at + DESCRIPTOR_BYTES <= |mem|
  {
    var lane := LaneAt(mem, at);
    && 1 <= lane.kind <= LANES
    && Uint32(mem, at + 12) == 0
    && (forall i :: at + 40 <= i < at + DESCRIPTOR_BYTES ==> mem[i] == 0)
    && LaneSizesOk(lane.kind, lane.slotBytes, lane.capacity, limits)
    && Aligned(lane.slotOffset)
    && lane.slotOffset + lane.slotBytes * lane.capacity <= |mem|
    && Uint64(mem, at + 24) == 0 && Uint64(mem, at + 32) == 0
  }

  type Span = (nat, nat)

  predicate Disjoint(a: Span, b: Span) {
    a.1 <= b.0 || b.1 <= a.0
  }

  function SlotSpan(lane: LaneLayout): Span {
    (lane.slotOffset, lane.slotOffset + lane.slotBytes * lane.capacity)
  }

  function HeaderLayout(mem: seq<byte>): Layout
    requires |mem| >= HEADER_BYTES
  {
    Layout(|mem|, Uint64(mem, 40), Uint64(mem, 48), Uint64(mem, 56), [])
  }

  predicate HeaderOk(mem: seq<byte>, e: Expected) {
    && HEADER_BYTES <= |mem| <= e.limits.maxMapping && |mem| == e.mappingBytes
    && mem[..4] == MAGIC && Uint32(mem, 4) == ABI_VERSION && Uint32(mem, 8) == HEADER_BYTES
    && Uint32(mem, 32) == LANES && Uint32(mem, 36) == DESCRIPTOR_BYTES
    && Uint32(mem, 12) == |mem|
    && Uint64(mem, 16) == e.worker && Uint64(mem, 24) == e.stream
    && var h := HeaderLayout(mem);
    && Aligned(h.descriptors) && Aligned(h.arena)
    && h.descriptors + LANES * DESCRIPTOR_BYTES <= |mem|
    && BUILD_BYTES < h.arenaBytes <= e.limits.maxArena && h.arena + h.arenaBytes <= |mem|
  }

  function DescriptorAt(h: Layout, i: nat): nat {
    h.descriptors + i * DESCRIPTOR_BYTES
  }

  /** Header, descriptor table, arena and the four slot regions. */
  function Spans(mem: seq<byte>): (s: seq<Span>)
    requires |mem| >= HEADER_BYTES && HeaderLayout(mem).descriptors + LANES * DESCRIPTOR_BYTES <= |mem|
    ensures |s| == 3 + LANES
  {
    var h := HeaderLayout(mem);
    [(0, HEADER_BYTES), (h.descriptors, h.descriptors + LANES * DESCRIPTOR_BYTES), (h.arena, h.arena + h.arenaBytes),
     SlotSpan(Lane(mem, h, 0)), SlotSpan(Lane(mem, h, 1)), SlotSpan(Lane(mem, h, 2)), SlotSpan(Lane(mem, h, 3))]
  }

  /** Everything the validator demands of a mapping, in one place. */
  ghost predicate Regular(mem: seq<byte>, baseAligned: bool, e: Expected) {
    && e.limits.Valid() && e.BuildNamed() && e.worker != 0 && e.stream != 0 && baseAligned
    && HeaderOk(mem, e)
    && var h := HeaderLayout(mem);
    && (forall i :: 0 <= i < LANES ==> DescriptorOk(mem, DescriptorAt(h, i), e.limits))
    && (forall i, k :: 0 <= i < k < LANES ==> Lane(mem, h, i).kind != Lane(mem, h, k).kind)
    && (forall i, k :: 0 <= i < k < 3 + LANES ==> Disjoint(Spans(mem)[i], Spans(mem)[k]))
    && mem[h.arena..h.arena + BUILD_BYTES] == e.build
  }

  /** The layout handed out lists the described lanes by kind. */
  ghost predicate Describes(mem: seq<byte>, l: Layout)
    requires |mem| >= HEADER_BYTES && HeaderLayout(mem).descriptors + LANES * DESCRIPTOR_BYTES <= |mem|
  {
    var h := HeaderLayout(mem);
    && l == h.(lanes := l.lanes) && |l.lanes| == LANES
    && forall i :: 0 <= i < LANES ==>
         1 <= Lane(mem, h, i).kind <= LANES && l.lanes[Lane(mem, h, i).kind - 1] == Lane(mem, h, i)
  }

  // ---- The validator ----

  method ValidateMapping(mem: seq<byte>, baseAligned: bool, e: Expected) returns (r: Result<Layout>)
    ensures r.Ok? <==> Regular(mem, baseAligned, e)
    ensures r.Ok? ==> Describes(mem, r.value)
  {
    hide DescriptorOk, LaneAt, Uint32, Uint64;
    var header := ValidateHeader(mem, baseAligned, e);
    if header.Err? {
      return header;
    }
    var h := header.value;
    var lanes := ValidateDescriptors(mem, h, e.limits);
    if lanes.Err? {
      return Err(lanes.error);
    }
    var disjoint := AllDisjoint(Spans(mem));
    if !disjoint {
      return Err(Overlapping);
    }
    if mem[h.arena..h.arena + BUILD_BYTES] != e.build {
      return Err(BuildMismatch);
    }
    r := Ok(h.(lanes := lanes.value));
  }

  /** The lane of descriptor i. */
  function Lane(mem: seq<byte>, h: Layout, i: nat): LaneLayout
    requires i < LANES && h.descriptors + LANES * DESCRIPTOR_BYTES <= |mem|
  {
    LaneAt(mem, DescriptorAt(h, i))
  }

  method ValidateDescriptors(mem: seq<byte>, h: Layout, limits: Limits) returns (r: Result<seq<LaneLayout>>)
    requires h.descriptors + LANES * DESCRIPTOR_BYTES <= |mem|
    ensures r.Ok? <==>
            && (forall i :: 0 <= i < LANES ==> DescriptorOk(mem, DescriptorAt(h, i), limits))
            && (forall i, k :: 0 <= i < k < LANES ==> Lane(mem, h, i).kind != Lane(mem, h, k).kind)
    ensures r.Ok? ==> |r.value| == LANES && forall i :: 0 <= i < LANES ==>
              1 <= Lane(mem, h, i).kind <= LANES && r.value[Lane(mem, h, i).kind - 1] == Lane(mem, h, i)
  {
    hide DescriptorOk, LaneAt, Uint32, Uint64, Collected;
    var empty := LaneLayout(0, 0, 0, 0, 0, 0);
    var lanes, seen := [empty, empty, empty, empty], [false, false, false, false];
    NothingCollected(mem, h, lanes, seen);
    for i := 0 to LANES
      invariant forall k :: 0 <= k < i ==> DescriptorOk(mem, DescriptorAt(h, k), limits)
      invariant Collected(mem, h, i, lanes, seen)
    {
      CollectedSizes(mem, h, i, lanes, seen);
      var at := DescriptorAt(h, i);
      var lane := LaneAt(mem, at);
      assert lane == Lane(mem, h, i);
      if lane.kind < 1 || lane.kind > LANES {
        if DescriptorOk(mem, at, limits) {
          KindChecked(mem, at, limits);
        }
        return Err(BadLane);
      }
      if seen[lane.kind - 1] {
        SeenTwice(mem, h, i, lanes, seen);
        return Err(BadLane);
      }
      var fault := ValidateDescriptor(mem, at, limits);
      if fault.Err? {
        return Err(fault.error);
      }
      CollectOne(mem, h, i, lanes, seen);
      seen, lanes := seen[lane.kind - 1 := true], lanes[lane.kind - 1 := lane];
    }
    CollectedAll(mem, h, lanes, seen);
    r := Ok(lanes);
  }

  /** The first n descriptors have different kinds, and are filed under their kind. */
  ghost predicate Collected(mem: seq<byte>, h: Layout, n: nat, lanes: seq<LaneLayout>, seen: seq<bool>)
    requires n <= LANES && h.descriptors + LANES * DESCRIPTOR_BYTES <= |mem|
  {
    && |lanes| == LANES && |seen| == LANES
    && (forall k :: 0 <= k < n ==> 1 <= Lane(mem, h, k).kind <= LANES)
    && (forall k, m :: 0 <= k < m < n ==> Lane(mem, h, k).kind != Lane(mem, h, m).kind)
    && (forall k :: 0 <= k < n ==>
          seen[Lane(mem, h, k).kind - 1] && lanes[Lane(mem, h, k).kind - 1] == Lane(mem, h, k))
    && (forall c :: 0 <= c < LANES && seen[c] ==> lanes[c].kind == c + 1 && FiledFrom(mem, h, n, lanes[c]))
  }

  ghost predicate FiledFrom(mem: seq<byte>, h: Layout, n: nat, lane: LaneLayout)
    requires n <= LANES && h.descriptors + LANES * DESCRIPTOR_BYTES <= |mem|
  {
    exists k :: 0 <= k < n && Lane(mem, h, k) == lane
  }

  lemma NothingCollected(mem: seq<byte>, h: Layout, lanes: seq<LaneLayout>, seen: seq<bool>)
    requires h.descriptors + LANES * DESCRIPTOR_BYTES <= |mem|
    requires |lanes| == LANES && seen == [false, false, false, false]
    ensures Collected(mem, h, 0, lanes, seen)
  {
  }

  lemma CollectOne(mem: seq<byte>, h: Layout, n: nat, lanes: seq<LaneLayout>, seen: seq<bool>)
    requires n < LANES && h.descriptors + LANES * DESCRIPTOR_BYTES <= |mem|
    requires Collected(mem, h, n, lanes, seen)
    requires 1 <= Lane(mem, h, n).kind <= LANES && !seen[Lane(mem, h, n).kind - 1]
    ensures var lane := Lane(mem, h, n);
            Collected(mem, h, n + 1, lanes[lane.kind - 1 := lane], seen[lane.kind - 1 := true])
  {
    hide Lane;
    var lane := Lane(mem, h, n);
    var seen', lanes' := seen[lane.kind - 1 := true], lanes[lane.kind - 1 := lane];
    forall c | 0 <= c < LANES && seen'[c]
      ensures lanes'[c].kind == c + 1 && FiledFrom(mem, h, n + 1, lanes'[c])
    {
      assert c == lane.kind - 1 || FiledFrom(mem, h, n, lanes[c]);
    }
  }

  lemma SeenTwice(mem: seq<byte>, h: Layout, n: nat, lanes: seq<LaneLayout>, seen: seq<bool>)
    requires n < LANES && h.descriptors + LANES * DESCRIPTOR_BYTES <= |mem|
    requires Collected(mem, h, n, lanes, seen)
    requires 1 <= Lane(mem, h, n).kind <= LANES && seen[Lane(mem, h, n).kind - 1]
    ensures exists k :: 0 <= k < n && Lane(mem, h, k).kind == Lane(mem, h, n).kind
  {
    hide Lane;
    assert FiledFrom(mem, h, n, lanes[Lane(mem, h, n).kind - 1]);
  }

  lemma CollectedSizes(mem: seq<byte>, h: Layout, n: nat, lanes: seq<LaneLayout>, seen: seq<bool>)
    requires n <= LANES && h.descriptors + LANES * DESCRIPTOR_BYTES <= |mem| && Collected(mem, h, n, lanes, seen)
    ensures |lanes| == LANES && |seen| == LANES
  {
  }

  lemma CollectedAll(mem: seq<byte>, h: Layout, lanes: seq<LaneLayout>, seen: seq<bool>)
    requires h.descriptors + LANES * DESCRIPTOR_BYTES <= |mem| && Collected(mem, h, LANES, lanes, seen)
    ensures |lanes| == LANES
    ensures forall i, k :: 0 <= i < k < LANES ==> Lane(mem, h, i).kind != Lane(mem, h, k).kind
    ensures forall i :: 0 <= i < LANES ==>
              1 <= Lane(mem, h, i).kind <= LANES && lanes[Lane(mem, h, i).kind - 1] == Lane(mem, h, i)
  {
  }

  lemma KindChecked(mem: seq<byte>, at: nat, limits: Limits)
    requires at + DESCRIPTOR_BYTES <= |mem| && DescriptorOk(mem, at, limits)
    ensures 1 <= LaneAt(mem, at).kind <= LANES
  {
  }

  method ValidateHeader(mem: seq<byte>, baseAligned: bool, e: Expected) returns (r: Result<Layout>)
    ensures r.Ok? <==>
            e.limits.Valid() && e.BuildNamed() && e.worker != 0 && e.stream != 0 && baseAligned && HeaderOk(mem, e)
    ensures r.Ok? ==> r.value == HeaderLayout(mem)
  {
    if !e.limits.Valid() {
      return Err(InvalidLimits);
    }
    if !e.BuildNamed() {
      return Err(BuildMismatch);
    }
    if e.worker == 0 || e.stream == 0 {
      return Err(IdentityMismatch);
    }
    if !baseAligned {
      return Err(Misaligned);
    }
    if |mem| < HEADER_BYTES || |mem| > e.limits.maxMapping || |mem| != e.mappingBytes {
      return Err(MappingSize);
    }
    if mem[..4] != MAGIC || Uint32(mem, 4) != ABI_VERSION || Uint32(mem, 8) != HEADER_BYTES ||
       Uint32(mem, 32) != LANES || Uint32(mem, 36) != DESCRIPTOR_BYTES {
      return Err(AbiMismatch);
    }
    if Uint32(mem, 12) != |mem| {
      return Err(MappingSize);
    }
    if Uint64(mem, 16) != e.worker || Uint64(mem, 24) != e.stream {
      return Err(IdentityMismatch);
    }
    var h := HeaderLayout(mem);
    if !Aligned(h.descriptors) || !Aligned(h.arena) {
      return Err(Misaligned);
    }
    if h.descriptors + LANES * DESCRIPTOR_BYTES > |mem| || h.arenaBytes <= BUILD_BYTES ||
       h.arenaBytes > e.limits.maxArena || h.arena + h.arenaBytes > |mem| {
      return Err(OutOfBounds);
    }
    r := Ok(h);
  }

  /** Everything about one descriptor except that its kind is new. */
  method ValidateDescriptor(mem: seq<byte>, at: nat, limits: Limits) returns (r: Result<LaneLayout>)
    requires at + DESCRIPTOR_BYTES <= |mem| && 1 <= LaneAt(mem, at).kind <= LANES
    ensures r.Ok? <==> DescriptorOk(mem, at, limits)
  {
    var lane := LaneAt(mem, at);
    if Uint32(mem, at + 12) != 0 {
      return Err(ReservedNotZero);
    }
    for i := at + 40 to at + DESCRIPTOR_BYTES
      invariant forall k :: at + 40 <= k < i ==> mem[k] == 0
    {
      if mem[i] != 0 {
        return Err(ReservedNotZero);
      }
    }
    if !LaneSizesOk(lane.kind, lane.slotBytes, lane.capacity, limits) {
      return Err(BadLane);
    }
    if !Aligned(lane.slotOffset) {
      return Err(Misaligned);
    }
    if lane.slotOffset + lane.slotBytes * lane.capacity > |mem| {
      return Err(OutOfBounds);
    }
    if Uint64(mem, at + 24) != 0 || Uint64(mem, at + 32) != 0 {
      return Err(BadIndex);
    }
    r := Ok(lane);
  }

  method AllDisjoint(spans: seq<Span>) returns (ok: bool)
    ensures ok <==> forall i, k :: 0 <= i < k < |spans| ==> Disjoint(spans[i], spans[k])
  {
    for i := 0 to |spans|
      invariant forall m, k :: 0 <= m < i && m < k < |spans| ==> Disjoint(spans[m], spans[k])
    {
      for k := i + 1 to |spans|
        invariant forall m :: i < m < k ==> Disjoint(spans[i], spans[m])
      {
        if spans[i].0 < spans[k].1 && spans[k].0 < spans[i].1 {
          return false;
        }
      }
    }
    ok := true;
  }

  // ---- What an accepted layout promises ----

  /** The eight index words and four slot regions of a layout never share a byte. */
  ghost predicate Sound(l: Layout, limits: Limits) {
    && |l.lanes| == LANES
    && (forall k :: 0 <= k < LANES ==> l.lanes[k].kind == k + 1 && LaneInside(l, l.lanes[k], limits))
    && (forall k, m :: 0 <= k < m < LANES ==> Apart(l.lanes[k], l.lanes[m]))
  }

  ghost predicate LaneInside(l: Layout, lane: LaneLayout, limits: Limits) {
    && LaneSizesOk(lane.kind, lane.slotBytes, lane.capacity, limits)
    && SlotSpan(lane).1 <= l.total
    && lane.consumerOffset == lane.producerOffset + 8
    && l.descriptors <= lane.producerOffset && lane.consumerOffset + 8 <= l.descriptors + LANES * DESCRIPTOR_BYTES <= l.total
    && Disjoint(SlotSpan(lane), (l.descriptors, l.descriptors + LANES * DESCRIPTOR_BYTES))
  }

  ghost predicate Apart(a: LaneLayout, b: LaneLayout) {
    && Disjoint(SlotSpan(a), SlotSpan(b))
    && (a.consumerOffset + 8 <= b.producerOffset || b.consumerOffset + 8 <= a.producerOffset)
  }

  lemma FourKinds(k0: nat, k1: nat, k2: nat, k3: nat, kind: nat)
    requires 1 <= k0 <= 4 && 1 <= k1 <= 4 && 1 <= k2 <= 4 && 1 <= k3 <= 4 && 1 <= kind <= 4
    requires k0 != k1 && k0 != k2 && k0 != k3 && k1 != k2 && k1 != k3 && k2 != k3
    ensures kind == k0 || kind == k1 || kind == k2 || kind == k3
  {
  }

  /** Each of the four kinds has its descriptor. */
  lemma DescriptorOfKind(mem: seq<byte>, l: Layout, kind: nat) returns (i: nat)
    requires |mem| >= HEADER_BYTES && HeaderLayout(mem).descriptors + LANES * DESCRIPTOR_BYTES <= |mem|
    requires Describes(mem, l) && 1 <= kind <= LANES
    requires forall i, k :: 0 <= i < k < LANES ==>
               Lane(mem, HeaderLayout(mem), i).kind != Lane(mem, HeaderLayout(mem), k).kind
    ensures i < LANES && l.lanes[kind - 1] == Lane(mem, HeaderLayout(mem), i) && l.lanes[kind - 1].kind == kind
  {
    hide LaneAt, HeaderLayout;
    var h := HeaderLayout(mem);
    var k0, k1, k2, k3 := Lane(mem, h, 0).kind, Lane(mem, h, 1).kind, Lane(mem, h, 2).kind, Lane(mem, h, 3).kind;
    FourKinds(k0, k1, k2, k3, kind);
    i := if k0 == kind then 0 else if k1 == kind then 1 else if k2 == kind then 2 else 3;
  }

  lemma DescribedLaneInside(mem: seq<byte>, baseAligned: bool, e: Expected, l: Layout, i: nat)
    requires Regular(mem, baseAligned, e) && Describes(mem, l) && i < LANES
    ensures LaneInside(l, Lane(mem, HeaderLayout(mem), i), e.limits)
  {
    hide Uint32, Uint64;
    assert DescriptorOk(mem, DescriptorAt(HeaderLayout(mem), i), e.limits);
    assert Disjoint(Spans(mem)[1], Spans(mem)[3 + i]);
  }

  lemma DescribedLanesApart(mem: seq<byte>, baseAligned: bool, e: Expected, i: nat, k: nat)
    requires Regular(mem, baseAligned, e) && i < LANES && k < LANES && i != k
    ensures Apart(Lane(mem, HeaderLayout(mem), i), Lane(mem, HeaderLayout(mem), k))
  {
    hide Uint32, Uint64, DescriptorOk;
    if i < k {
      assert Disjoint(Spans(mem)[3 + i], Spans(mem)[3 + k]);
    } else {
      assert Disjoint(Spans(mem)[3 + k], Spans(mem)[3 + i]);
    }
  }

  /** Every mapping the validator accepts has a sound layout. */
  lemma AcceptedIsSound(mem: seq<byte>, baseAligned: bool, e: Expected, l: Layout)
    requires Regular(mem, baseAligned, e) && Describes(mem, l)
    ensures Sound(l, e.limits) && l.total == |mem|
  {
    hide LaneInside, Apart, DescriptorOk, LaneAt, Spans;
    forall k | 0 <= k < LANES
      ensures l.lanes[k].kind == k + 1 && LaneInside(l, l.lanes[k], e.limits)
    {
      var i := DescriptorOfKind(mem, l, k + 1);
      DescribedLaneInside(mem, baseAligned, e, l, i);
    }
    forall k, m | 0 <= k < m < LANES
      ensures Apart(l.lanes[k], l.lanes[m])
    {
      var i := DescriptorOfKind(mem, l, k + 1);
      var j := DescriptorOfKind(mem, l, m + 1);
      DescribedLanesApart(mem, baseAligned, e, i, j);
    }
  }
}
