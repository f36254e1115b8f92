/** AA24InitMapping: the mapping it writes into the caller's memory, and that the validator accepts it. */
module LayoutInit {
  import opened Octets
  import opened Envelope
  import opened Mapping = Layout

  datatype LaneConfig = LaneConfig(slotBytes: u32, capacity: u32)

  /** The lanes are indexed by kind minus one. */
  datatype MappingConfig = MappingConfig(lanes: seq<LaneConfig>, arenaBytes: u64) {
    predicate Whole() {
      |lanes| == LANES
    }
  }

  const HEADER_WIDTHS: seq<nat> := [4, 4, 4, 4, 8, 8, 4, 4, 8, 8, 8]
  const DESCRIPTOR_WIDTHS: seq<nat> := [4, 4, 4, 4, 8, 8, 8, 24]
  const TABLE_END := HEADER_BYTES + LANES * DESCRIPTOR_BYTES

  function RegionBytes(l: LaneConfig): nat {
    l.slotBytes * l.capacity
  }

  /** The slot regions follow the descriptor table in the order of their kinds. */
  function Region(c: MappingConfig, i: nat): (r: nat)
    requires c.Whole() && i <= LANES
    ensures r >= TABLE_END
  {
    if i == 0 then TABLE_END else Region(c, i - 1) + RegionBytes(c.lanes[i - 1])
  }

  function Total(c: MappingConfig): nat
    requires c.Whole()
  {
    Region(c, LANES) + c.arenaBytes
  }

  /** What the initializer demands before it touches the memory. */
  predicate Fits(c: MappingConfig, e: Expected, baseAligned: bool, length: nat)
    requires c.Whole()
  {
    && e.limits.Valid() && e.BuildNamed() && e.worker != 0 && e.stream != 0 && baseAligned
    && BUILD_BYTES < c.arenaBytes <= e.limits.maxArena && Aligned(c.arenaBytes)
    && (forall i :: 0 <= i < LANES ==> LaneSizesOk(i + 1, c.lanes[i].slotBytes, c.lanes[i].capacity, e.limits))
    && Total(c) <= e.limits.maxMapping && Total(c) == length
  }

  function HeaderValues(c: MappingConfig, e: Expected): (v: seq<nat>)
    requires c.Whole()
    ensures |v| == 11
  {
    [FromLe(MAGIC), ABI_VERSION, HEADER_BYTES, Total(c), e.worker, e.stream, LANES, DESCRIPTOR_BYTES, HEADER_BYTES, Region(c, LANES), c.arenaBytes]
  }

  function DescriptorValues(c: MappingConfig, i: nat): (v: seq<nat>)
    requires c.Whole() && i < LANES
    ensures |v| == 8
  {
    [i + 1, c.lanes[i].slotBytes, c.lanes[i].capacity, 0, Region(c, i), 0, 0, 0]
  }

  function Header(c: MappingConfig, e: Expected): seq<byte>
    requires c.Whole()
  {
    Pack(HEADER_WIDTHS, HeaderValues(c, e))
  }

  function Descriptor(c: MappingConfig, i: nat): seq<byte>
    requires c.Whole() && i < LANES
  {
    Pack(DESCRIPTOR_WIDTHS, DescriptorValues(c, i))
  }

  /** The header and the first n descriptors. */
  function Front(c: MappingConfig, e: Expected, n: nat): seq<byte>
    requires c.Whole() && n <= LANES
  {
    if n == 0 then Header(c, e) else Front(c, e, n - 1) + Descriptor(c, n - 1)
  }

  /** The whole mapping: front, empty slots, and the arena opening with the build identity. */
  function Image(c: MappingConfig, e: Expected): seq<byte>
    requires c.Whole() && |e.build| == BUILD_BYTES && c.arenaBytes >= BUILD_BYTES
  {
    Front(c, e, LANES) + Zeros(Region(c, LANES) - TABLE_END) + e.build + Zeros(c.arenaBytes - BUILD_BYTES)
  }

  // ---- Words of the image ----

  lemma Widths()
    ensures Offset(HEADER_WIDTHS, 11) == HEADER_BYTES && Offset(DESCRIPTOR_WIDTHS, 8) == DESCRIPTOR_BYTES
  {
    hide Offset;
    OffsetsOf(HEADER_WIDTHS, HEADER_OFFSETS, 11);
    OffsetsOf(DESCRIPTOR_WIDTHS, DESCRIPTOR_OFFSETS, 8);
  }

  /** A table of partial sums is the table of offsets. */
  lemma {:induction false} OffsetsOf(widths: seq<nat>, sums: seq<nat>, k: nat)
    requires |sums| == |widths| + 1 && sums[0] == 0 && k <= |widths|
    requires forall i :: 0 <= i < |widths| ==> sums[i + 1] == sums[i] + widths[i]
    ensures Offset(widths, k) == sums[k]
  {
    if k == 0 {
      OffsetZero(widths);
    } else {
      OffsetsOf(widths, sums, k - 1);
      OffsetNext(widths, k - 1);
    }
  }

  const HEADER_OFFSETS: seq<nat> := [0, 4, 8, 12, 16, 24, 32, 36, 40, 48, 56, 64]
  const DESCRIPTOR_OFFSETS: seq<nat> := [0, 4, 8, 12, 16, 24, 32, 40, 64]

  lemma FrontLength(c: MappingConfig, e: Expected, n: nat)
    requires c.Whole() && n <= LANES
    ensures |Front(c, e, n)| == HEADER_BYTES + n * DESCRIPTOR_BYTES
  {
    Widths();
    if n == 0 {
      PackLength(HEADER_WIDTHS, HeaderValues(c, e));
    } else {
      FrontLength(c, e, n - 1);
      PackLength(DESCRIPTOR_WIDTHS, DescriptorValues(c, n - 1));
    }
  }

  /** A word written in one piece of the memory is read back there. */
  lemma WordInPiece(mem: seq<byte>, at: nat, widths: seq<nat>, sums: seq<nat>, v: seq<nat>, k: nat)
    requires |v| == |widths| && k < |widths| && |sums| == |widths| + 1 && sums[0] == 0
    requires forall i :: 0 <= i < |widths| ==> sums[i + 1] == sums[i] + widths[i]
    requires at + |Pack(widths, v)| <= |mem| && mem[at..at + |Pack(widths, v)|] == Pack(widths, v)
    requires v[k] < Pow256(widths[k])
    ensures at + sums[k] + widths[k] <= |mem|
    ensures FromLe(mem[at + sums[k]..at + sums[k] + widths[k]]) == v[k]
    ensures mem[at + sums[k]..at + sums[k] + widths[k]] == Le(v[k], widths[k])
  {
    hide Pack, Offset, Le, FromLe, Pow256;
    OffsetsOf(widths, sums, k);
    PackedWord(widths, v, k);
    var n := |Pack(widths, v)|;
    SubSlice(mem, at, at + n, at + sums[k], at + sums[k] + widths[k]);
    WordRoundTrip(v[k], widths[k]);
  }

  lemma {:induction false} RegionOrder(c: MappingConfig, i: nat, k: nat)
    requires c.Whole() && i <= k <= LANES
    ensures Region(c, i) <= Region(c, k)
    decreases k
  {
    if i < k { RegionOrder(c, i, k - 1); }
  }

  lemma {:induction false} RegionAligned(c: MappingConfig, e: Expected, i: nat)
    requires c.Whole() && i <= LANES
    requires forall k :: 0 <= k < LANES ==> LaneSizesOk(k + 1, c.lanes[k].slotBytes, c.lanes[k].capacity, e.limits)
    ensures Aligned(Region(c, i))
    decreases i
  {
    hide Region;
    if i == 0 {
      FirstRegion(c);
    } else {
      RegionAligned(c, e, i - 1);
      NextRegion(c, i - 1);
      var slotBytes: nat, capacity: nat := c.lanes[i - 1].slotBytes, c.lanes[i - 1].capacity;
      assert LaneSizesOk(i, slotBytes, capacity, e.limits);
      TimesAligned(slotBytes, capacity);
      SumAligned(Region(c, i - 1), slotBytes * capacity);
    }
  }

  lemma SumAligned(a: nat, b: nat)
    requires Aligned(a) && Aligned(b)
    ensures Aligned(a + b)
  {
  }

  lemma TimesAligned(a: nat, b: nat)
    requires Aligned(a)
    ensures Aligned(a * b)
  {
    assert a * b == 8 * (a / 8 * b);
  }

  // ---- Pieces of the image ----

  lemma ImagePieces(c: MappingConfig, e: Expected)
    requires c.Whole() && |e.build| == BUILD_BYTES && c.arenaBytes >= BUILD_BYTES
    ensures var m := Image(c, e);
      && |m| == Total(c) && m[..TABLE_END] == Front(c, e, LANES)
      && m[Region(c, LANES)..Region(c, LANES) + BUILD_BYTES] == e.build
  {
    hide Front, Region, Zeros;
    FrontLength(c, e, LANES);
    ZerosLength(Region(c, LANES) - TABLE_END);
    ZerosLength(c.arenaBytes - BUILD_BYTES);
  }

  lemma ZerosLength(n: nat)
    ensures |Zeros(n)| == n
  {
  }

  lemma {:induction false} FrontPieces(c: MappingConfig, e: Expected, n: nat, i: nat)
    requires c.Whole() && n <= LANES
    ensures |Front(c, e, n)| == HEADER_BYTES + n * DESCRIPTOR_BYTES
    ensures Front(c, e, n)[..HEADER_BYTES] == Header(c, e)
    ensures i < n ==> Front(c, e, n)[HEADER_BYTES + i * DESCRIPTOR_BYTES..HEADER_BYTES + (i + 1) * DESCRIPTOR_BYTES] == Descriptor(c, i)
    decreases n
  {
    hide Header, Descriptor;
    FrontLength(c, e, n);
    if n > 0 {
      FrontLength(c, e, n - 1);
      FrontPieces(c, e, n - 1, i);
    }
  }

  lemma HeaderPiece(c: MappingConfig, e: Expected)
    requires c.Whole() && |e.build| == BUILD_BYTES && c.arenaBytes >= BUILD_BYTES
    ensures |Image(c, e)| == Total(c) && |Header(c, e)| == HEADER_BYTES && Image(c, e)[0..HEADER_BYTES] == Header(c, e)
  {
    hide Front, Header, Image;
    ImagePieces(c, e);
    FrontPieces(c, e, LANES, 0);
    FrontLength(c, e, LANES);
    HeaderLength(c, e);
    assert Image(c, e)[..TABLE_END][..HEADER_BYTES] == Image(c, e)[0..HEADER_BYTES];
  }

  lemma HeaderLength(c: MappingConfig, e: Expected)
    requires c.Whole()
    ensures |Header(c, e)| == HEADER_BYTES
  {
    FrontLength(c, e, 0);
  }

  lemma DescriptorPiece(c: MappingConfig, e: Expected, i: nat)
    requires c.Whole() && |e.build| == BUILD_BYTES && c.arenaBytes >= BUILD_BYTES && i < LANES
    ensures var at := HEADER_BYTES + i * DESCRIPTOR_BYTES;
      && |Image(c, e)| == Total(c) && |Descriptor(c, i)| == DESCRIPTOR_BYTES
      && Image(c, e)[at..at + DESCRIPTOR_BYTES] == Descriptor(c, i)
  {
    hide Front, Descriptor, Image;
    ImagePieces(c, e);
    FrontPieces(c, e, LANES, i);
    DescriptorLength(c, i);
    var at := HEADER_BYTES + i * DESCRIPTOR_BYTES;
    SubSlice(Image(c, e), 0, TABLE_END, at, at + DESCRIPTOR_BYTES);
  }

  lemma DescriptorLength(c: MappingConfig, i: nat)
    requires c.Whole() && i < LANES
    ensures |Descriptor(c, i)| == DESCRIPTOR_BYTES
  {
    Widths();
    PackLength(DESCRIPTOR_WIDTHS, DescriptorValues(c, i));
  }

  // ---- Fields of the image ----

  lemma Powers()
    ensures Pow256(4) == 0x1_0000_0000 && Pow256(8) == 0x1_0000_0000_0000_0000 && Pow256(24) > 0
  {
  }

  lemma HeaderField(c: MappingConfig, e: Expected, k: nat)
    requires c.Whole() && |e.build| == BUILD_BYTES && c.arenaBytes >= BUILD_BYTES && Total(c) <= e.limits.maxMapping && k < 11
    ensures var m, at := Image(c, e), HEADER_OFFSETS[k];
      && |m| == Total(c) && at + HEADER_WIDTHS[k] <= |m|
      && FromLe(m[at..at + HEADER_WIDTHS[k]]) == HeaderValues(c, e)[k]
      && m[at..at + HEADER_WIDTHS[k]] == Le(HeaderValues(c, e)[k], HEADER_WIDTHS[k])
  {
    hide Image, FromLe, Le;
    HeaderPiece(c, e);
    HeaderFits(c, e, k);
    WordInPiece(Image(c, e), 0, HEADER_WIDTHS, HEADER_OFFSETS, HeaderValues(c, e), k);
  }

  lemma HeaderFits(c: MappingConfig, e: Expected, k: nat)
    requires c.Whole() && Total(c) <= e.limits.maxMapping && k < 11
    ensures HeaderValues(c, e)[k] < Pow256(HEADER_WIDTHS[k])
  {
    hide Pow256, FromLe;
    Powers();
    assert FromLe(MAGIC) < Pow256(4);
  }

  lemma DescriptorField(c: MappingConfig, e: Expected, i: nat, k: nat)
    requires c.Whole() && |e.build| == BUILD_BYTES && c.arenaBytes >= BUILD_BYTES && Total(c) <= e.limits.maxMapping && i < LANES && k < 8
    ensures var m, at := Image(c, e), HEADER_BYTES + i * DESCRIPTOR_BYTES + DESCRIPTOR_OFFSETS[k];
      && |m| == Total(c) && at + DESCRIPTOR_WIDTHS[k] <= |m|
      && FromLe(m[at..at + DESCRIPTOR_WIDTHS[k]]) == DescriptorValues(c, i)[k]
      && m[at..at + DESCRIPTOR_WIDTHS[k]] == Le(DescriptorValues(c, i)[k], DESCRIPTOR_WIDTHS[k])
  {
    hide Image, FromLe, Le;
    DescriptorPiece(c, e, i);
    DescriptorFits(c, e, i, k);
    WordInPiece(Image(c, e), HEADER_BYTES + i * DESCRIPTOR_BYTES, DESCRIPTOR_WIDTHS, DESCRIPTOR_OFFSETS, DescriptorValues(c, i), k);
  }

  lemma DescriptorFits(c: MappingConfig, e: Expected, i: nat, k: nat)
    requires c.Whole() && Total(c) <= e.limits.maxMapping && i < LANES && k < 8
    ensures DescriptorValues(c, i)[k] < Pow256(DESCRIPTOR_WIDTHS[k])
  {
    hide Pow256, Region;
    Powers();
    RegionOrder(c, i, LANES);
  }

  lemma {:induction false} LeZero(n: nat)
    ensures Le(0, n) == Zeros(n)
  {
    if n > 0 { LeZero(n - 1); }
  }

  // ---- The image is regular ----

  lemma HeaderWords(c: MappingConfig, e: Expected, baseAligned: bool)
    requires c.Whole() && Fits(c, e, baseAligned, Total(c))
    ensures var m := Image(c, e);
      && |m| == Total(c) >= HEADER_BYTES && m[..4] == MAGIC && Uint32(m, 4) == ABI_VERSION && Uint32(m, 8) == HEADER_BYTES
      && Uint32(m, 12) == Total(c) && Uint64(m, 16) == e.worker
  {
    hide Image, FromLe, Region;
    HeaderField(c, e, 0); HeaderField(c, e, 1); HeaderField(c, e, 2); HeaderField(c, e, 3); HeaderField(c, e, 4);
    BytesRoundTrip(MAGIC);
  }

  lemma HeaderTable(c: MappingConfig, e: Expected, baseAligned: bool)
    requires c.Whole() && Fits(c, e, baseAligned, Total(c))
    ensures var m := Image(c, e);
      && |m| == Total(c) >= HEADER_BYTES && Uint64(m, 24) == e.stream && Uint32(m, 32) == LANES && Uint32(m, 36) == DESCRIPTOR_BYTES
      && HeaderLayout(m) == Mapping.Layout(Total(c), HEADER_BYTES, Region(c, LANES), c.arenaBytes, [])
  {
    hide Image, Uint32, Uint64, Region;
    HeaderPlaces(c, e, baseAligned);
    HeaderRegions(c, e, baseAligned);
  }

  lemma HeaderPlaces(c: MappingConfig, e: Expected, baseAligned: bool)
    requires c.Whole() && Fits(c, e, baseAligned, Total(c))
    ensures var m := Image(c, e);
      && |m| == Total(c) >= HEADER_BYTES && Uint64(m, 24) == e.stream && Uint32(m, 32) == LANES && Uint32(m, 36) == DESCRIPTOR_BYTES
  {
    hide Image, FromLe, Region, Le;
    HeaderField(c, e, 5); HeaderField(c, e, 6); HeaderField(c, e, 7);
  }

  lemma HeaderRegions(c: MappingConfig, e: Expected, baseAligned: bool)
    requires c.Whole() && Fits(c, e, baseAligned, Total(c))
    ensures var m := Image(c, e);
      && |m| == Total(c) >= HEADER_BYTES
      && Uint64(m, 40) == HEADER_BYTES && Uint64(m, 48) == Region(c, LANES) && Uint64(m, 56) == c.arenaBytes
  {
    hide Image, FromLe, Region, Le;
    HeaderField(c, e, 8); HeaderField(c, e, 9); HeaderField(c, e, 10);
  }

  lemma ImageHeaderOk(c: MappingConfig, e: Expected, baseAligned: bool)
    requires c.Whole() && Fits(c, e, baseAligned, Total(c)) && e.mappingBytes == Total(c)
    ensures HeaderOk(Image(c, e), e)
  {
    hide Image, Uint32, Uint64, HeaderLayout, Region;
    HeaderWords(c, e, baseAligned);
    HeaderTable(c, e, baseAligned);
    RegionAligned(c, e, LANES);
  }

  lemma DescriptorWords(c: MappingConfig, e: Expected, baseAligned: bool, i: nat)
    requires c.Whole() && Fits(c, e, baseAligned, Total(c)) && i < LANES
    ensures var m, at := Image(c, e), HEADER_BYTES + i * DESCRIPTOR_BYTES;
      && |m| == Total(c) && at + DESCRIPTOR_BYTES <= |m|
      && LaneAt(m, at) == LaneLayout(i + 1, c.lanes[i].slotBytes, c.lanes[i].capacity, Region(c, i), at + 24, at + 32)
      && Uint32(m, at + 12) == 0
  {
    hide Image, FromLe, Region;
    DescriptorField(c, e, i, 0); DescriptorField(c, e, i, 1); DescriptorField(c, e, i, 2); DescriptorField(c, e, i, 3);
    DescriptorField(c, e, i, 4);
  }

  lemma DescriptorZeros(c: MappingConfig, e: Expected, baseAligned: bool, i: nat)
    requires c.Whole() && Fits(c, e, baseAligned, Total(c)) && i < LANES
    ensures var m, at := Image(c, e), HEADER_BYTES + i * DESCRIPTOR_BYTES;
      && |m| == Total(c) && at + DESCRIPTOR_BYTES <= |m|
      && Uint64(m, at + 24) == 0 && Uint64(m, at + 32) == 0
      && forall k :: at + 40 <= k < at + DESCRIPTOR_BYTES ==> m[k] == 0
  {
    hide Image, FromLe, Region, Le;
    DescriptorField(c, e, i, 5); DescriptorField(c, e, i, 6); DescriptorField(c, e, i, 7);
    LeZero(24);
    var m, at := Image(c, e), HEADER_BYTES + i * DESCRIPTOR_BYTES;
    assert m[at + 40..at + 64] == Zeros(24);
    ReadZeros(m, at + 40, 24);
  }

  lemma ReadZeros(m: seq<byte>, at: nat, n: nat)
    requires at + n <= |m| && m[at..at + n] == Zeros(n)
    ensures forall k :: at <= k < at + n ==> m[k] == 0
  {
    forall k | at <= k < at + n
      ensures m[k] == 0
    {
      assert m[k] == m[at..at + n][k - at];
    }
  }

  lemma ImageDescriptorOk(c: MappingConfig, e: Expected, baseAligned: bool, i: nat)
    requires c.Whole() && Fits(c, e, baseAligned, Total(c)) && i < LANES
    ensures |Image(c, e)| == Total(c) && HEADER_BYTES + (i + 1) * DESCRIPTOR_BYTES <= Total(c)
    ensures DescriptorOk(Image(c, e), HEADER_BYTES + i * DESCRIPTOR_BYTES, e.limits)
  {
    hide Image, Uint32, Uint64, LaneAt;
    DescriptorWords(c, e, baseAligned, i);
    DescriptorZeros(c, e, baseAligned, i);
    RegionAligned(c, e, i);
    RegionOrder(c, i + 1, LANES);
  }

  /** The seven regions of the image lie one behind the other. */
  lemma ImageSpans(c: MappingConfig, e: Expected, baseAligned: bool)
    requires c.Whole() && Fits(c, e, baseAligned, Total(c))
    ensures var m := Image(c, e);
      && |m| == Total(c) >= TABLE_END && HeaderLayout(m).descriptors == HEADER_BYTES
      && Spans(m) == [(0, HEADER_BYTES), (HEADER_BYTES, TABLE_END), (Region(c, 4), Total(c)),
                      (Region(c, 0), Region(c, 1)), (Region(c, 1), Region(c, 2)), (Region(c, 2), Region(c, 3)), (Region(c, 3), Region(c, 4))]
  {
    hide Image, Uint32, Uint64, LaneAt, Region;
    HeaderTable(c, e, baseAligned);
    forall i | 0 <= i < LANES
      ensures LaneAt(Image(c, e), HEADER_BYTES + i * DESCRIPTOR_BYTES) ==
        LaneLayout(i + 1, c.lanes[i].slotBytes, c.lanes[i].capacity, Region(c, i), HEADER_BYTES + i * DESCRIPTOR_BYTES + 24, HEADER_BYTES + i * DESCRIPTOR_BYTES + 32)
      ensures Region(c, i + 1) == Region(c, i) + c.lanes[i].slotBytes * c.lanes[i].capacity
    {
      DescriptorWords(c, e, baseAligned, i);
      NextRegion(c, i);
    }
    FourSpans(c, e);
  }

  lemma NextRegion(c: MappingConfig, i: nat)
    requires c.Whole() && i < LANES
    ensures Region(c, i + 1) == Region(c, i) + c.lanes[i].slotBytes * c.lanes[i].capacity
  {
  }

  lemma FourSpans(c: MappingConfig, e: Expected)
    requires c.Whole() && |e.build| == BUILD_BYTES && c.arenaBytes >= BUILD_BYTES && |Image(c, e)| == Total(c) >= TABLE_END
    requires HeaderLayout(Image(c, e)) == Mapping.Layout(Total(c), HEADER_BYTES, Region(c, LANES), c.arenaBytes, [])
    requires forall i :: 0 <= i < LANES ==>
      && LaneAt(Image(c, e), HEADER_BYTES + i * DESCRIPTOR_BYTES) ==
           LaneLayout(i + 1, c.lanes[i].slotBytes, c.lanes[i].capacity, Region(c, i), HEADER_BYTES + i * DESCRIPTOR_BYTES + 24, HEADER_BYTES + i * DESCRIPTOR_BYTES + 32)
      && Region(c, i + 1) == Region(c, i) + c.lanes[i].slotBytes * c.lanes[i].capacity
    ensures Spans(Image(c, e)) == [(0, HEADER_BYTES), (HEADER_BYTES, TABLE_END), (Region(c, 4), Total(c)),
              (Region(c, 0), Region(c, 1)), (Region(c, 1), Region(c, 2)), (Region(c, 2), Region(c, 3)), (Region(c, 3), Region(c, 4))]
  {
    hide Image, Uint32, Uint64, LaneAt, Region, HeaderLayout;
    assert LaneAt(Image(c, e), HEADER_BYTES + 0 * DESCRIPTOR_BYTES).slotOffset == Region(c, 0);
    assert LaneAt(Image(c, e), HEADER_BYTES + 1 * DESCRIPTOR_BYTES).slotOffset == Region(c, 1);
    assert LaneAt(Image(c, e), HEADER_BYTES + 2 * DESCRIPTOR_BYTES).slotOffset == Region(c, 2);
    assert LaneAt(Image(c, e), HEADER_BYTES + 3 * DESCRIPTOR_BYTES).slotOffset == Region(c, 3);
  }

  lemma OrderedApart(r0: nat, r1: nat, r2: nat, r3: nat, r4: nat, total: nat)
    requires TABLE_END == r0 <= r1 <= r2 <= r3 <= r4 <= total
    ensures var s: seq<Span> := [(0, HEADER_BYTES), (HEADER_BYTES, TABLE_END), (r4, total), (r0, r1), (r1, r2), (r2, r3), (r3, r4)];
            forall i, k :: 0 <= i < k < 7 ==> Disjoint(s[i], s[k])
  {
  }

  /** Every mapping the initializer writes is one the validator accepts, for the very identity it was written for. */
  lemma ImageIsRegular(c: MappingConfig, e: Expected, baseAligned: bool)
    requires c.Whole() && Fits(c, e, baseAligned, Total(c)) && e.mappingBytes == Total(c)
    ensures |Image(c, e)| == Total(c) && Regular(Image(c, e), baseAligned, e)
  {
    hide Image, Uint32, Uint64, LaneAt, Region, HeaderOk, DescriptorOk, Spans, Disjoint;
    ImageHeaderOk(c, e, baseAligned);
    HeaderTable(c, e, baseAligned);
    ImagePieces(c, e);
    forall i | 0 <= i < LANES
      ensures DescriptorOk(Image(c, e), HEADER_BYTES + i * DESCRIPTOR_BYTES, e.limits)
      ensures LaneAt(Image(c, e), HEADER_BYTES + i * DESCRIPTOR_BYTES).kind == i + 1
    {
      ImageDescriptorOk(c, e, baseAligned, i);
      DescriptorWords(c, e, baseAligned, i);
    }
    ImageSpans(c, e, baseAligned);
    RegionOrder(c, 0, 1); RegionOrder(c, 1, 2); RegionOrder(c, 2, 3); RegionOrder(c, 3, 4);
    FirstRegion(c);
    OrderedApart(Region(c, 0), Region(c, 1), Region(c, 2), Region(c, 3), Region(c, 4), Total(c));
  }

  lemma FirstRegion(c: MappingConfig)
    requires c.Whole()
    ensures Region(c, 0) == TABLE_END
  {
  }

  // ---- The initializer ----

  method Put(mem: array<byte>, at: nat, bytes: seq<byte>)
    requires at + |bytes| <= mem.Length
    modifies mem
    ensures mem[..] == old(mem[..at]) + bytes + old(mem[at + |bytes|..])
  {
    for i := 0 to |bytes|
      invariant mem[..at] == old(mem[..at]) && mem[at..at + i] == bytes[..i] && mem[at + i..] == old(mem[at + i..])
    {
      mem[at + i] := bytes[i];
      assert mem[at..at + i + 1] == mem[at..at + i] + [bytes[i]];
      assert mem[at + i + 1..] == old(mem[at + i + 1..]);
    }
    assert mem[..] == mem[..at] + mem[at..at + |bytes|] + mem[at + |bytes|..];
  }

  /** Goes on with the next bytes of memory that is zero behind what was written so far. */
  method Extend(mem: array<byte>, ghost done: seq<byte>, at: nat, bytes: seq<byte>)
    requires at == |done| && at + |bytes| <= mem.Length && mem[..] == done + Zeros(mem.Length - at)
    modifies mem
    ensures mem[..] == done + bytes + Zeros(mem.Length - at - |bytes|)
  {
    Put(mem, at, bytes);
  }

  lemma Split(n: nat, k: nat)
    requires k <= n
    ensures Zeros(n) == Zeros(k) + Zeros(n - k)
  {
  }

  /** What is wrong with a request for a mapping of this length, in the order of the checks. */
  method CheckRequest(c: MappingConfig, e: Expected, baseAligned: bool, length: nat) returns (fault: Option<Error>)
    requires c.Whole()
    ensures fault.None? <==> Fits(c, e, baseAligned, length)
  {
    if !e.limits.Valid() { return Some(InvalidLimits); }
    if !e.BuildNamed() { return Some(BuildMismatch); }
    if e.worker == 0 || e.stream == 0 { return Some(IdentityMismatch); }
    if !baseAligned { return Some(Misaligned); }
    if c.arenaBytes <= BUILD_BYTES || c.arenaBytes > e.limits.maxArena || !Aligned(c.arenaBytes) { return Some(InvalidLimits); }
    for i := 0 to LANES
      invariant forall k :: 0 <= k < i ==> LaneSizesOk(k + 1, c.lanes[k].slotBytes, c.lanes[k].capacity, e.limits)
    {
      if !LaneSizesOk(i + 1, c.lanes[i].slotBytes, c.lanes[i].capacity, e.limits) { return Some(BadLane); }
    }
    if Total(c) > e.limits.maxMapping || Total(c) != length { return Some(MappingSize); }
    return None;
  }

  /** The expectation the initializer hands back with the mapping. */
  function Expectation(build: seq<byte>, worker: u64, stream: u64, limits: Limits, total: nat): Expected {
    Expected(build, worker, stream, if total < 0x1_0000_0000 then total else 0, limits)
  }

  /**
    Writes a fresh mapping into the caller's memory exactly when the request fits it; the validator
    then accepts it under the same identity, with the lanes as configured. A refusal leaves the memory
    untouched.
    */
  method InitMapping(mem: array<byte>, baseAligned: bool, c: MappingConfig, build: seq<byte>, worker: u64, stream: u64, limits: Limits)
    returns (r: Result<Mapping.Layout>)
    requires c.Whole()
    modifies mem
    ensures var e := Expectation(build, worker, stream, limits, mem.Length);
      && (r.Ok? <==> Fits(c, e, baseAligned, mem.Length))
      && (r.Ok? ==> mem[..] == Image(c, e) && Regular(mem[..], baseAligned, e) && Describes(mem[..], r.value))
      && (r.Ok? ==> forall i :: 0 <= i < LANES ==> Configured(r.value, c, i))
    ensures r.Err? ==> mem[..] == old(mem[..])
  {
    hide Image, Front, Region, Regular, Describes, Header, Descriptor, Fits;
    var e := Expectation(build, worker, stream, limits, mem.Length);
    var fault := CheckRequest(c, e, baseAligned, mem.Length);
    if fault.Some? { return Err(fault.value); }
    Fill(mem, c, e, baseAligned);
    assert e.mappingBytes == Total(c) by { FitsTotal(c, e, baseAligned, mem.Length); }
    FitsTotal(c, e, baseAligned, mem.Length);
    ImageIsRegular(c, e, baseAligned);
    HeaderTable(c, e, baseAligned);
    RegionOrder(c, 0, LANES);
    FirstRegion(c);
    r := ValidateMapping(mem[..], baseAligned, e);
    forall i | 0 <= i < LANES
      ensures Configured(r.value, c, i)
    {
      LaneConfigured(c, e, baseAligned, r.value, i);
    }
  }

  lemma FitsTotal(c: MappingConfig, e: Expected, baseAligned: bool, length: nat)
    requires c.Whole() && Fits(c, e, baseAligned, length)
    ensures Total(c) == length < 0x1_0000_0000 && |e.build| == BUILD_BYTES && c.arenaBytes >= BUILD_BYTES
    ensures Region(c, LANES) + c.arenaBytes == length
  {
  }

  /** The lane of this kind has the size asked for and starts where the one before ends. */
  ghost predicate Configured(l: Mapping.Layout, c: MappingConfig, i: nat)
    requires c.Whole() && i < LANES
  {
    && |l.lanes| == LANES
    && l.lanes[i].kind == i + 1 && l.lanes[i].slotBytes == c.lanes[i].slotBytes && l.lanes[i].capacity == c.lanes[i].capacity
    && l.lanes[i].slotOffset == Region(c, i)
  }

  lemma LaneConfigured(c: MappingConfig, e: Expected, baseAligned: bool, l: Mapping.Layout, i: nat)
    requires c.Whole() && Fits(c, e, baseAligned, Total(c)) && e.mappingBytes == Total(c) && i < LANES
    requires |Image(c, e)| == Total(c) >= HEADER_BYTES && HeaderLayout(Image(c, e)).descriptors + LANES * DESCRIPTOR_BYTES <= Total(c)
    requires Describes(Image(c, e), l)
    ensures Configured(l, c, i)
  {
    hide Image, Uint32, Uint64, LaneAt, Region;
    HeaderTable(c, e, baseAligned);
    DescriptorWords(c, e, baseAligned, i);
    assert Mapping.Lane(Image(c, e), HeaderLayout(Image(c, e)), i).kind == i + 1;
  }

  method Fill(mem: array<byte>, c: MappingConfig, e: Expected, baseAligned: bool)
    requires c.Whole() && Fits(c, e, baseAligned, mem.Length)
    modifies mem
    ensures |e.build| == BUILD_BYTES && c.arenaBytes >= BUILD_BYTES && mem[..] == Image(c, e)
  {
    hide Region, Front, Zeros, Fits;
    FitsTotal(c, e, baseAligned, mem.Length);
    FillFront(mem, c, e);
    FrontLength(c, e, LANES);
    var slots := Region(c, LANES) - TABLE_END;
    Split(mem.Length - TABLE_END, slots);
    ZerosLength(slots);
    assert mem[..] == (Front(c, e, LANES) + Zeros(slots)) + Zeros(mem.Length - Region(c, LANES));
    Extend(mem, Front(c, e, LANES) + Zeros(slots), Region(c, LANES), e.build);
  }

  /** Header and descriptors, one behind the other. */
  method FillFront(mem: array<byte>, c: MappingConfig, e: Expected)
    requires c.Whole() && mem.Length >= TABLE_END
    modifies mem
    ensures mem[..] == Front(c, e, LANES) + Zeros(mem.Length - TABLE_END)
  {
    hide Header, Descriptor, Zeros;
    Clear(mem);
    NoFront(mem.Length);
    HeaderLength(c, e);
    Extend(mem, [], 0, Header(c, e));
    assert [] + Header(c, e) == Header(c, e);
    for i := 0 to LANES
      invariant mem[..] == Front(c, e, i) + Zeros(mem.Length - HEADER_BYTES - i * DESCRIPTOR_BYTES)
    {
      FrontLength(c, e, i);
      DescriptorLength(c, i);
      Extend(mem, Front(c, e, i), HEADER_BYTES + i * DESCRIPTOR_BYTES, Descriptor(c, i));
    }
  }

  lemma NoFront(n: nat)
    ensures Zeros(n) == [] + Zeros(n - 0)
  {
  }

  method Clear(mem: array<byte>)
    modifies mem
    ensures mem[..] == Zeros(mem.Length)
  {
    for i := 0 to mem.Length
      invariant forall k :: 0 <= k < i ==> mem[k] == 0
    {
      mem[i] := 0;
    }
  }
}
