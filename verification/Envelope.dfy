/** The 128-byte slot envelope of the shared-memory link, and the shape each record kind must have. */
module Envelope {
  import opened Octets

  type u32 = x: int | 0 <= x < 0x1_0000_0000
  type u64 = x: int | 0 <= x < 0x1_0000_0000_0000_0000

  const ENVELOPE_BYTES := 128

  // ---- Little-endian words ----

  function Pow256(n: nat): (r: nat)
    ensures r > 0
  {
    if n == 0 then 1 else 256 * Pow256(n - 1)
  }

  function Le(x: nat, n: nat): (s: seq<byte>)
    ensures |s| == n
  {
    if n == 0 then [] else [x % 256] + Le(x / 256, n - 1)
  }

  function FromLe(s: seq<byte>): (x: nat)
    ensures x < Pow256(|s|)
  {
    if s == [] then 0 else s[0] + 256 * FromLe(s[1..])
  }

  lemma {:induction false} WordRoundTrip(x: nat, n: nat)
    requires x < Pow256(n)
    ensures FromLe(Le(x, n)) == x
  {
    if n > 0 {
      WordRoundTrip(x / 256, n - 1);
      assert Le(x, n)[1..] == Le(x / 256, n - 1);
    }
  }

  lemma {:induction false} BytesRoundTrip(s: seq<byte>)
    ensures Le(FromLe(s), |s|) == s
  {
    if s != [] {
      BytesRoundTrip(s[1..]);
      assert FromLe(s) % 256 == s[0] && FromLe(s) / 256 == FromLe(s[1..]);
      assert s == [s[0]] + s[1..];
    }
  }

  lemma SubSlice(a: seq<byte>, lo: nat, hi: nat, x: nat, y: nat)
    requires lo <= x <= y <= hi <= |a|
    ensures a[x..y] == a[lo..hi][x - lo..y - lo]
  {
    var p, q := a[x..y], a[lo..hi][x - lo..y - lo];
    forall i | 0 <= i < |p|
      ensures p[i] == q[i]
    {
    }
  }

  // ---- The record ----

  datatype Record = Record(
    kind: u32, worker: u64, stream: u64, transaction: u64, plan: u64, subscriber: u64, epoch: u64,
    token: u64, ownerExpiry: u64, captureSequence: u64, captureTime: u64, planExpiry: u64,
    requestDeadline: u64, arenaOffset: u64, planBytes: u32, status: u32, target: byte, rawOctet: byte,
    direction: byte, phase: byte, flags: u32, payload: seq<byte>)

  /** Where each envelope field lies; field 1 is the payload length. */
  const OFFSETS: seq<nat> := [0, 4, 8, 16, 24, 32, 40, 48, 56, 64, 72, 80, 88, 96, 104, 112, 116, 120, 121, 122, 123, 124]
  const WIDTHS: seq<nat> := [4, 4, 8, 8, 8, 8, 8, 8, 8, 8, 8, 8, 8, 8, 8, 4, 4, 1, 1, 1, 1, 4]
  const FIELDS := 22

  function Values(r: Record): (v: seq<nat>)
    ensures |v| == FIELDS
  {
    [r.kind, |r.payload|, r.worker, r.stream, r.transaction, r.plan, r.subscriber, r.epoch, r.token,
     r.ownerExpiry, r.captureSequence, r.captureTime, r.planExpiry, r.requestDeadline, r.arenaOffset,
     r.planBytes, r.status, r.target, r.rawOctet, r.direction, r.phase, r.flags]
  }

  /** Words of the given widths, one after the other. */
  function Pack(widths: seq<nat>, v: seq<nat>): seq<byte>
    requires |v| == |widths|
  {
    if v == [] then [] else Le(v[0], widths[0]) + Pack(widths[1..], v[1..])
  }

  /** Where word k of a packed sequence starts. */
  function Offset(widths: seq<nat>, k: nat): nat
    requires k <= |widths|
  {
    if k == 0 then 0 else widths[0] + Offset(widths[1..], k - 1)
  }

  function Zeros(n: nat): seq<byte> {
    seq(n, _ => 0)
  }

  /** aa24Encode: the envelope, the payload, and zeros to the end of the slot. */
  function EncodeSlot(r: Record, slotBytes: nat): seq<byte>
    requires ENVELOPE_BYTES + |r.payload| <= slotBytes
  {
    Pack(WIDTHS, Values(r)) + r.payload + Zeros(slotBytes - ENVELOPE_BYTES - |r.payload|)
  }

  function Get(slot: seq<byte>, k: nat): nat
    requires |slot| >= ENVELOPE_BYTES && k < FIELDS
  {
    FromLe(Word(slot, k))
  }

  function Word(slot: seq<byte>, k: nat): (w: seq<byte>)
    requires |slot| >= ENVELOPE_BYTES && k < FIELDS
    ensures |w| == WIDTHS[k]
  {
    slot[OFFSETS[k]..OFFSETS[k] + WIDTHS[k]]
  }

  function Uint32(slot: seq<byte>, offset: nat): u32
    requires offset + 4 <= |slot|
  {
    assert Pow256(4) == 0x1_0000_0000;
    FromLe(slot[offset..offset + 4])
  }

  function Uint64(slot: seq<byte>, offset: nat): u64
    requires offset + 8 <= |slot|
  {
    assert Pow256(8) == 0x1_0000_0000_0000_0000;
    FromLe(slot[offset..offset + 8])
  }

  /** aa24DecodeEnvelope, with the payload the caller copied. */
  function DecodeEnvelope(slot: seq<byte>, payload: seq<byte>): Record
    requires |slot| >= ENVELOPE_BYTES
  {
    Record(
      Uint32(slot, 0), Uint64(slot, 8), Uint64(slot, 16), Uint64(slot, 24), Uint64(slot, 32), Uint64(slot, 40),
      Uint64(slot, 48), Uint64(slot, 56), Uint64(slot, 64), Uint64(slot, 72), Uint64(slot, 80), Uint64(slot, 88),
      Uint64(slot, 96), Uint64(slot, 104), Uint32(slot, 112), Uint32(slot, 116),
      slot[120], slot[121], slot[122], slot[123], Uint32(slot, 124), payload)
  }

  // ---- Round trip ----

  lemma {:induction false} PackLength(widths: seq<nat>, v: seq<nat>)
    requires |v| == |widths|
    ensures |Pack(widths, v)| == Offset(widths, |widths|)
  {
    if v != [] {
      PackLength(widths[1..], v[1..]);
    }
  }

  /** Word k of a packed sequence is found at its offset. */
  lemma {:induction false} PackedWord(widths: seq<nat>, v: seq<nat>, k: nat)
    requires |v| == |widths| && k < |widths|
    ensures Offset(widths, k) + widths[k] <= |Pack(widths, v)|
    ensures Pack(widths, v)[Offset(widths, k)..Offset(widths, k) + widths[k]] == Le(v[k], widths[k])
  {
    hide Le;
    var first, rest := Le(v[0], widths[0]), Pack(widths[1..], v[1..]);
    assert Pack(widths, v) == first + rest;
    if k > 0 {
      PackedWord(widths[1..], v[1..], k - 1);
      var at := Offset(widths[1..], k - 1);
      AfterPrefix(first, rest, at, at + widths[k]);
    }
  }

  lemma AfterPrefix(first: seq<byte>, rest: seq<byte>, x: nat, y: nat)
    requires x <= y <= |rest|
    ensures (first + rest)[|first| + x..|first| + y] == rest[x..y]
  {
  }

  lemma {:induction false} OffsetNext(widths: seq<nat>, k: nat)
    requires k < |widths|
    ensures Offset(widths, k + 1) == Offset(widths, k) + widths[k]
  {
    if k > 0 {
      OffsetNext(widths[1..], k - 1);
    }
  }

  /** The documented offsets are those of the packed fields, and the envelope has no hole. */
  lemma {:induction false} OffsetsAgree(k: nat)
    requires k <= FIELDS
    ensures Offset(WIDTHS, k) == if k == FIELDS then ENVELOPE_BYTES else OFFSETS[k]
  {
    hide Offset;
    if k == 0 {
      OffsetZero(WIDTHS);
    } else {
      OffsetsAgree(k - 1);
      OffsetNext(WIDTHS, k - 1);
      Consecutive(k - 1);
    }
  }

  lemma OffsetZero(widths: seq<nat>)
    ensures Offset(widths, 0) == 0
  {
  }

  lemma Consecutive(k: nat)
    requires k < FIELDS
    ensures OFFSETS[0] == 0
    ensures OFFSETS[k] + WIDTHS[k] == if k + 1 == FIELDS then ENVELOPE_BYTES else OFFSETS[k + 1]
  {
  }

  lemma ValuesFit(r: Record, k: nat)
    requires k < FIELDS && |r.payload| < 0x1_0000_0000
    ensures Values(r)[k] < Pow256(WIDTHS[k])
  {
    assert Pow256(1) == 256;
    assert Pow256(4) == 0x1_0000_0000;
    assert Pow256(8) == 0x1_0000_0000_0000_0000;
  }

  lemma EncodedSlotShape(r: Record, slotBytes: nat)
    requires ENVELOPE_BYTES + |r.payload| <= slotBytes
    ensures var slot := EncodeSlot(r, slotBytes);
            && |slot| == slotBytes && slot[..ENVELOPE_BYTES] == Pack(WIDTHS, Values(r))
            && slot[ENVELOPE_BYTES..ENVELOPE_BYTES + |r.payload|] == r.payload
            && forall i :: ENVELOPE_BYTES + |r.payload| <= i < slotBytes ==> slot[i] == 0
  {
    hide Pack, Values, Offset;
    PackLength(WIDTHS, Values(r));
    OffsetsAgree(FIELDS);
  }

  lemma EncodedField(r: Record, slotBytes: nat, k: nat)
    requires ENVELOPE_BYTES + |r.payload| <= slotBytes < 0x1_0000_0000 && k < FIELDS
    ensures |EncodeSlot(r, slotBytes)| == slotBytes
    ensures Get(EncodeSlot(r, slotBytes), k) == Values(r)[k]
  {
    hide EncodeSlot, Pack, Values, Offset;
    EncodedSlotShape(r, slotBytes);
    ValuesFit(r, k);
    OffsetsAgree(k);
    PackedWord(WIDTHS, Values(r), k);
    var slot := EncodeSlot(r, slotBytes);
    SubSlice(slot, 0, ENVELOPE_BYTES, OFFSETS[k], OFFSETS[k] + WIDTHS[k]);
    WordRoundTrip(Values(r)[k], WIDTHS[k]);
  }

  lemma Field32(r: Record, slotBytes: nat, k: nat)
    requires ENVELOPE_BYTES + |r.payload| <= slotBytes < 0x1_0000_0000 && k < FIELDS && WIDTHS[k] == 4
    ensures |EncodeSlot(r, slotBytes)| == slotBytes
    ensures Uint32(EncodeSlot(r, slotBytes), OFFSETS[k]) == Values(r)[k]
  {
    hide EncodeSlot, Values, FromLe;
    EncodedField(r, slotBytes, k);
  }

  lemma Field64(r: Record, slotBytes: nat, k: nat)
    requires ENVELOPE_BYTES + |r.payload| <= slotBytes < 0x1_0000_0000 && k < FIELDS && WIDTHS[k] == 8
    ensures |EncodeSlot(r, slotBytes)| == slotBytes
    ensures Uint64(EncodeSlot(r, slotBytes), OFFSETS[k]) == Values(r)[k]
  {
    hide EncodeSlot, Values, FromLe;
    EncodedField(r, slotBytes, k);
  }

  lemma Field8(r: Record, slotBytes: nat, k: nat)
    requires ENVELOPE_BYTES + |r.payload| <= slotBytes < 0x1_0000_0000 && k < FIELDS && WIDTHS[k] == 1
    ensures |EncodeSlot(r, slotBytes)| == slotBytes
    ensures EncodeSlot(r, slotBytes)[OFFSETS[k]] == Values(r)[k]
  {
    hide EncodeSlot, Values, FromLe;
    EncodedField(r, slotBytes, k);
    OneByteWord(Word(EncodeSlot(r, slotBytes), k));
  }

  lemma OneByteWord(w: seq<byte>)
    requires |w| == 1
    ensures FromLe(w) == w[0]
  {
    assert w[1..] == [] && FromLe([]) == 0;
  }

  lemma RoundTripHead(r: Record, slotBytes: nat)
    requires ENVELOPE_BYTES + |r.payload| <= slotBytes < 0x1_0000_0000
    ensures var slot := EncodeSlot(r, slotBytes);
            && |slot| == slotBytes
            && Uint32(slot, 0) == r.kind && Uint32(slot, 4) == |r.payload| && Uint64(slot, 8) == r.worker
            && Uint64(slot, 16) == r.stream && Uint64(slot, 24) == r.transaction && Uint64(slot, 32) == r.plan
  {
    hide EncodeSlot, Uint32, Uint64;
    Field32(r, slotBytes, 0); Field32(r, slotBytes, 1); Field64(r, slotBytes, 2);
    Field64(r, slotBytes, 3); Field64(r, slotBytes, 4); Field64(r, slotBytes, 5);
  }

  lemma RoundTripIdentity(r: Record, slotBytes: nat)
    requires ENVELOPE_BYTES + |r.payload| <= slotBytes < 0x1_0000_0000
    ensures var slot := EncodeSlot(r, slotBytes);
            && |slot| == slotBytes
            && Uint64(slot, 40) == r.subscriber && Uint64(slot, 48) == r.epoch && Uint64(slot, 56) == r.token
            && Uint64(slot, 64) == r.ownerExpiry && Uint64(slot, 72) == r.captureSequence
  {
    hide EncodeSlot, Uint32, Uint64;
    Field64(r, slotBytes, 6); Field64(r, slotBytes, 7); Field64(r, slotBytes, 8);
    Field64(r, slotBytes, 9); Field64(r, slotBytes, 10);
  }

  lemma RoundTripTimes(r: Record, slotBytes: nat)
    requires ENVELOPE_BYTES + |r.payload| <= slotBytes < 0x1_0000_0000
    ensures var slot := EncodeSlot(r, slotBytes);
            && |slot| == slotBytes
            && Uint64(slot, 80) == r.captureTime && Uint64(slot, 88) == r.planExpiry && Uint64(slot, 96) == r.requestDeadline
            && Uint64(slot, 104) == r.arenaOffset && Uint32(slot, 112) == r.planBytes
  {
    hide EncodeSlot, Uint32, Uint64;
    Field64(r, slotBytes, 11); Field64(r, slotBytes, 12); Field64(r, slotBytes, 13);
    Field64(r, slotBytes, 14); Field32(r, slotBytes, 15);
  }

  lemma RoundTripTail(r: Record, slotBytes: nat)
    requires ENVELOPE_BYTES + |r.payload| <= slotBytes < 0x1_0000_0000
    ensures var slot := EncodeSlot(r, slotBytes);
            && |slot| == slotBytes
            && Uint32(slot, 116) == r.status && slot[120] == r.target && slot[121] == r.rawOctet
            && slot[122] == r.direction && slot[123] == r.phase && Uint32(slot, 124) == r.flags
  {
    hide EncodeSlot, Uint32, Uint64;
    Field32(r, slotBytes, 16); Field8(r, slotBytes, 17); Field8(r, slotBytes, 18);
    Field8(r, slotBytes, 19); Field8(r, slotBytes, 20); Field32(r, slotBytes, 21);
  }

  /** A slot read back field for field is the record written. */
  lemma EnvelopeRoundTrip(r: Record, slotBytes: nat)
    requires ENVELOPE_BYTES + |r.payload| <= slotBytes < 0x1_0000_0000
    ensures |EncodeSlot(r, slotBytes)| == slotBytes
    ensures DecodeEnvelope(EncodeSlot(r, slotBytes), r.payload) == r
    ensures Uint32(EncodeSlot(r, slotBytes), 4) == |r.payload|
  {
    hide EncodeSlot, Uint32, Uint64;
    RoundTripHead(r, slotBytes);
    RoundTripIdentity(r, slotBytes);
    RoundTripTimes(r, slotBytes);
    RoundTripTail(r, slotBytes);
  }
}
