/** aa24Lane: one side's view of a lane, working in place on the shared bytes. */
module LaneView {
  import opened Octets
  import opened Envelope
  import opened Layout
  import opened Lanes
  import opened LaneRuns

  datatype Outcome =
    | Written | NotOwner | PayloadTooLarge | BadRecord | IndexBroken | Full | CounterExhausted

  datatype Seen = Nothing | Owned(record: Record) | Failed(fault: Fault) | Broken | WrongSide

  /** Copies bytes over part of an array. */
  method Overwrite(mem: array<byte>, at: nat, bytes: seq<byte>)
    requires at + |bytes| <= mem.Length
    modifies mem
    ensures mem[..] == Splice(old(mem[..]), at, bytes)
  {
    for i := 0 to |bytes|
      invariant forall k :: 0 <= k < i ==> mem[at + k] == bytes[k]
      invariant forall k :: 0 <= k < mem.Length && !(at <= k < at + i) ==> mem[k] == old(mem[k])
    {
      mem[at + i] := bytes[i];
    }
    assert mem[at..at + |bytes|] == bytes;
    assert mem[..at] == old(mem[..at]) && mem[at + |bytes|..] == old(mem[at + |bytes|..]);
    assert mem[..] == mem[..at] + mem[at..at + |bytes|] + mem[at + |bytes|..];
    assert old(mem[..])[..at] == old(mem[..at]) && old(mem[..])[at + |bytes|..] == old(mem[at + |bytes|..]);
  }

  /** Both indices agree with each other and with what this side already knows. */
  predicate IndicesSane(p: nat, c: nat, capacity: nat, isProducer: bool, knownProducer: nat, knownConsumer: nat) {
    && c <= p <= c + capacity
    && if isProducer then p == knownProducer && c >= knownConsumer else c == knownConsumer && p >= knownProducer
  }

  class Lane {
    const mem: array<byte>
    const setup: Setup
    const lane: LaneLayout
    const isProducer: bool
    var localProducer: nat
    var localConsumer: nat

    ghost predicate Valid()
      reads mem
    {
      Inside(setup, mem[..], lane)
    }

    constructor (mem: array<byte>, setup: Setup, lane: LaneLayout, isProducer: bool)
      requires Inside(setup, mem[..], lane)
      ensures Valid() && this.mem == mem && this.lane == lane && this.setup == setup && this.isProducer == isProducer
      ensures localProducer == 0 && localConsumer == 0
    {
      this.mem, this.setup, this.lane, this.isProducer := mem, setup, lane, isProducer;
      localProducer, localConsumer := 0, 0;
    }

    ghost function Producer(): nat
      requires Valid()
      reads mem
    {
      LaneFacts(setup, mem[..], lane);
      Index(mem[..], lane.producerOffset)
    }

    ghost function Consumer(): nat
      requires Valid()
      reads mem
    {
      LaneFacts(setup, mem[..], lane);
      Index(mem[..], lane.consumerOffset)
    }

    /** Loads both indices, refuses any that broke the protocol, and remembers the peer's. */
    method Indices() returns (ok: bool, p: nat, c: nat)
      requires Valid()
      modifies this`localProducer, this`localConsumer
      ensures p == Producer() && c == Consumer()
      ensures ok == IndicesSane(p, c, lane.capacity, isProducer, old(localProducer), old(localConsumer))
      ensures ok ==> localProducer == p && localConsumer == c
      ensures !ok ==> localProducer == old(localProducer) && localConsumer == old(localConsumer)
    {
      LaneFacts(setup, mem[..], lane);
      p := Index(mem[..], lane.producerOffset);
      c := Index(mem[..], lane.consumerOffset);
      if c > p || p - c > lane.capacity {
        return false, p, c;
      }
      if isProducer {
        if p != localProducer || c < localConsumer {
          return false, p, c;
        }
        localConsumer := c;
      } else {
        if c != localConsumer || p < localProducer {
          return false, p, c;
        }
        localProducer := p;
      }
      ok := true;
    }

    /** Fills a whole owned slot and only then publishes the index; never touches an unread slot. */
    method Write(record: Record, reserve: nat) returns (r: Outcome)
      requires Valid()
      modifies this`localProducer, this`localConsumer, mem
      ensures Valid()
      ensures r == Written <==>
              && isProducer && WriteAccepts(record, lane, setup.layout, setup.limits)
              && IndicesSane(old(Producer()), old(Consumer()), lane.capacity, true, old(localProducer), old(localConsumer))
              && old(Producer()) - old(Consumer()) + reserve < lane.capacity && old(Producer()) < MAX64
      ensures r == Written ==>
                && localProducer == old(localProducer) + 1 && localConsumer == old(Consumer())
                && ENVELOPE_BYTES + |record.payload| <= lane.slotBytes < 0x1_0000_0000 && lane.capacity > 0
                && SlotSpan(lane).1 <= |old(mem[..])| && lane.producerOffset + 8 <= |FillSlot(old(mem[..]), lane, old(Producer()), record)|
                && mem[..] == StoreIndex(FillSlot(old(mem[..]), lane, old(Producer()), record),
                                         lane.producerOffset, old(Producer()) + 1)
      ensures r != Written ==> mem[..] == old(mem[..]) && localProducer == old(localProducer)
    {
      hide Splice, EncodeSlot, Shape, Index, LaneInside;
      if !isProducer {
        return NotOwner;
      }
      if |record.payload| > PayloadCap(lane, setup.limits) {
        return PayloadTooLarge;
      }
      if !Shape(record, lane.kind, setup.layout) {
        return BadRecord;
      }
      var ok, p, c := Indices();
      if !ok {
        return IndexBroken;
      }
      if p - c + reserve >= lane.capacity {
        return Full;
      }
      if p == MAX64 {
        return CounterExhausted;
      }
      LaneFacts(setup, mem[..], lane);
      WordBound(mem[..], lane.producerOffset);
      EnvelopeRoundTrip(record, lane.slotBytes);
      SlotInside(lane, p);
      SpliceLength(mem[..], SlotStart(lane, p), EncodeSlot(record, lane.slotBytes));
      Overwrite(mem, SlotStart(lane, p), EncodeSlot(record, lane.slotBytes));
      SpliceLength(mem[..], lane.producerOffset, Le(p + 1, 8));
      Overwrite(mem, lane.producerOffset, Le(p + 1, 8));
      localProducer := p + 1;
      r := Written;
    }

    /** Validates a detached copy of the oldest unread record and leaves its slot owned. */
    method Peek(room: nat) returns (r: Seen)
      requires Valid()
      modifies this`localProducer, this`localConsumer
      ensures isProducer ==> r == WrongSide
      ensures !isProducer && !IndicesSane(Producer(), Consumer(), lane.capacity, false, old(localProducer), old(localConsumer)) ==>
                r == Broken
      ensures !isProducer && IndicesSane(Producer(), Consumer(), lane.capacity, false, old(localProducer), old(localConsumer)) ==>
                && 0 < lane.capacity && SlotSpan(lane).1 <= |mem[..]| && ENVELOPE_BYTES <= lane.slotBytes
                && r == if Producer() == Consumer() then Nothing
                        else match PeekSlot(SlotOf(mem[..], lane, Consumer()), lane, setup.layout, setup.limits, room) {
                               case Found(record) => Owned(record)
                               case Refused(fault) => Failed(fault)
                             }
    {
      hide PeekSlot, SlotOf, Index;
      LaneFacts(setup, mem[..], lane);
      if isProducer {
        return WrongSide;
      }
      var ok, p, c := Indices();
      if !ok {
        return Broken;
      }
      if p == c {
        return Nothing;
      }
      match PeekSlot(SlotOf(mem[..], lane, c), lane, setup.layout, setup.limits, room)
      case Found(record) => r := Owned(record);
      case Refused(fault) => r := Failed(fault);
    }

    /** Frees the oldest unread slot; a broken or empty lane is left alone. */
    method Release()
      requires Valid()
      modifies this`localProducer, this`localConsumer, mem
      ensures Valid()
      ensures var p, c := old(Producer()), old(Consumer());
              var sane := IndicesSane(p, c, lane.capacity, isProducer, old(localProducer), old(localConsumer));
              && lane.consumerOffset + 8 <= |old(mem[..])|
              && mem[..] == (if sane && p != c then StoreIndex(old(mem[..]), lane.consumerOffset, c + 1) else old(mem[..]))
              && localConsumer == (if sane && p != c then c + 1 else if sane then c else old(localConsumer))
    {
      hide Splice, Index, LaneInside;
      LaneFacts(setup, mem[..], lane);
      var ok, p, c := Indices();
      if !ok || p == c {
        return;
      }
      SpliceLength(mem[..], lane.consumerOffset, Le(c + 1, 8));
      Overwrite(mem, lane.consumerOffset, Le(c + 1, 8));
      localConsumer := c + 1;
    }
  }

  lemma WordBound(mem: seq<byte>, at: nat)
    requires at + 8 <= |mem|
    ensures Index(mem, at) <= MAX64
  {
    assert Pow256(8) == MAX64 + 1;
  }
}
