/**
  Exact rational schedules on a 64-bit tick counter: when sample i or bit boundary b is due, which
  sample is due now, and how far a schedule can be trusted before the counter wraps.
  */
module Ticks {
  import opened Octets

  const TWO64 := 0x1_0000_0000_0000_0000
  const MAX64 := 0xFFFF_FFFF_FFFF_FFFF
  const BAUD := 2400
  const SAMPLE_RATE := 24000
  const BITS_PER_CHARACTER := 10
  const MAX_WIRE := 37

  /** Whole ticks and remainder of i * num / den, saturating where the quotient overflows. */
  function RationalAt(i: nat, num: nat, den: nat): (nat, nat)
    requires den > 0
  {
    if i * num / TWO64 >= den then (MAX64, 0) else (i * num / den, i * num % den)
  }

  function RationalDeadline(anchor: nat, i: nat, num: nat, den: nat): nat
    requires den > 0
  {
    var (whole, rest) := RationalAt(i, num, den);
    (anchor + (whole + if rest != 0 then 1 else 0) % TWO64) % TWO64
  }

  // ---- Exact meaning ----

  function Ceil(x: nat, n: nat): nat
    requires n > 0
  {
    (x + n - 1) / n
  }

  lemma DivBounds(x: nat, n: nat)
    requires n > 0
    ensures x / n * n <= x < x / n * n + n && x == x / n * n + x % n
  {
  }

  lemma LeDiv(i: nat, n: nat, x: nat)
    requires n > 0
    ensures i <= x / n <==> i * n <= x
  {
    DivBounds(x, n);
    if i <= x / n {
      assert i * n <= x / n * n;
    } else {
      assert i >= x / n + 1;
      assert i * n >= (x / n + 1) * n == x / n * n + n;
    }
  }

  lemma CeilLe(x: nat, n: nat, d: nat)
    requires n > 0
    ensures Ceil(x, n) <= d <==> x <= d * n
  {
    LeDiv(d + 1, n, x + n - 1);
    assert (d + 1) * n == d * n + n;
  }

  lemma CeilParts(x: nat, n: nat)
    requires n > 0
    ensures Ceil(x, n) == x / n + if x % n != 0 then 1 else 0
  {
    DivBounds(x, n);
    var q, r := x / n, x % n;
    assert x + n - 1 == q * n + (r + n - 1);
    if r == 0 {
      CeilLe(x, n, q);
      if q > 0 {
        CeilLe(x, n, q - 1);
        assert (q - 1) * n == q * n - n;
      }
    } else {
      CeilLe(x, n, q + 1);
      CeilLe(x, n, q);
      assert (q + 1) * n == q * n + n;
    }
  }

  /** Saturation is exactly an overflowing quotient. */
  lemma SaturatesIffOverflow(i: nat, num: nat, den: nat)
    requires den > 0
    ensures i * num / TWO64 >= den <==> i * num / den >= TWO64
  {
    LeDiv(den, TWO64, i * num);
    LeDiv(TWO64, den, i * num);
    assert den * TWO64 == TWO64 * den;
  }

  /** A deadline is the first whole tick at or after the exact instant, as long as that tick exists. */
  lemma DeadlineExact(anchor: nat, i: nat, num: nat, den: nat)
    requires den > 0
    ensures anchor + Ceil(i * num, den) <= MAX64 ==> RationalDeadline(anchor, i, num, den) == anchor + Ceil(i * num, den)
  {
    CeilParts(i * num, den);
    SaturatesIffOverflow(i, num, den);
  }

  /** Past the end of the counter a deadline is never the exact one. */
  lemma DeadlineWraps(anchor: nat, i: nat, num: nat, den: nat)
    requires den > 0 && anchor + Ceil(i * num, den) > MAX64
    ensures RationalDeadline(anchor, i, num, den) != anchor + Ceil(i * num, den)
  {
  }

  // ---- Sampling ----

  function SampleDeadline(anchor: nat, i: nat, hz: nat): nat {
    RationalDeadline(anchor, i, hz, SAMPLE_RATE)
  }

  function ExactDeadline(anchor: nat, i: nat, hz: nat): nat {
    anchor + Ceil(i * hz, SAMPLE_RATE)
  }

  /** The sample index computed at now. */
  function IndexAt(anchor: nat, now: nat, hz: nat): nat
    requires anchor <= now && hz > 0
  {
    RationalAt(now - anchor, SAMPLE_RATE, hz).0
  }

  /** It is the greatest index whose rounded-up deadline is at or before now. */
  lemma IndexIsGreatest(anchor: nat, now: nat, hz: nat, i: nat)
    requires anchor <= now <= MAX64 && hz >= SAMPLE_RATE
    ensures ExactDeadline(anchor, i, hz) <= now <==> i <= IndexAt(anchor, now, hz)
  {
    var d := now - anchor;
    IndexIsQuotient(d, hz);
    CeilLe(i * hz, SAMPLE_RATE, d);
    LeDiv(i, hz, d * SAMPLE_RATE);
  }

  lemma IndexIsQuotient(d: nat, hz: nat)
    requires d <= MAX64 && hz >= SAMPLE_RATE
    ensures RationalAt(d, SAMPLE_RATE, hz).0 == d * SAMPLE_RATE / hz <= d
  {
    SaturatesIffOverflow(d, SAMPLE_RATE, hz);
    LeDiv(d + 1, hz, d * SAMPLE_RATE);
    assert (d + 1) * hz >= (d + 1) * SAMPLE_RATE > d * SAMPLE_RATE;
    assert d * SAMPLE_RATE / hz <= d;
  }

  /** Deadlines strictly increase: samples are at least a tick apart. */
  lemma DeadlinesIncrease(anchor: nat, i: nat, hz: nat)
    requires hz >= SAMPLE_RATE
    ensures ExactDeadline(anchor, i, hz) < ExactDeadline(anchor, i + 1, hz)
  {
    assert (i + 1) * hz == i * hz + hz;
    var c := Ceil(i * hz, SAMPLE_RATE);
    if c > 0 {
      CeilLe(i * hz, SAMPLE_RATE, c - 1);
      assert c * SAMPLE_RATE == (c - 1) * SAMPLE_RATE + SAMPLE_RATE;
    }
    CeilLe(i * hz + hz, SAMPLE_RATE, c);
  }

  // ---- Response schedules ----

  datatype Config = Config(hz: nat, address: byte, turnaround: nat, lateTolerance: nat, echoAllowance: nat)

  const HORIZON_BITS := (1 + MAX_WIRE) * BITS_PER_CHARACTER

  function Reserve(c: Config): nat {
    Ceil(HORIZON_BITS * c.hz, BAUD) + c.turnaround + c.echoAllowance + c.lateTolerance
  }

  /** aa25ScheduleReserve: the sum, and whether no addition carried. */
  function ScheduleReserve(c: Config): (nat, bool) {
    var horizon := RationalDeadline(0, HORIZON_BITS, c.hz, BAUD);
    var a := horizon + c.turnaround;
    var b := a % TWO64 + c.echoAllowance;
    var d := b % TWO64 + c.lateTolerance;
    (d % TWO64, a < TWO64 && b < TWO64 && d < TWO64)
  }

  /** It is representable exactly when the true sum fits the counter, and then it is that sum. */
  lemma ReserveExact(c: Config)
    requires c.hz <= MAX64
    ensures ScheduleReserve(c).1 <==> Reserve(c) <= MAX64
    ensures ScheduleReserve(c).1 ==> ScheduleReserve(c).0 == Reserve(c)
  {
    hide Ceil, RationalDeadline;
    HorizonFits(c.hz);
    DeadlineExact(0, HORIZON_BITS, c.hz, BAUD);
  }

  lemma HorizonFits(hz: nat)
    requires hz <= MAX64
    ensures Ceil(HORIZON_BITS * hz, BAUD) <= MAX64
  {
    CeilLe(HORIZON_BITS * hz, BAUD, MAX64);
  }

  predicate ScheduleFits(reserve: nat, anchor: nat) {
    anchor + reserve <= MAX64
  }

  /** The absolute schedule of TX bit boundary `bit` of a response counted from base. */
  function TxDeadline(c: Config, anchor: nat, base: nat, bit: nat): nat
    requires base <= bit
  {
    RationalDeadline((anchor + c.turnaround) % TWO64, BITS_PER_CHARACTER + bit - base, c.hz, BAUD)
  }

  /** An admitted schedule never wraps: every TX, late and echo deadline is exact. */
  lemma AdmittedNeverWraps(c: Config, anchor: nat, base: nat, bit: nat)
    requires c.hz <= MAX64 && ScheduleFits(Reserve(c), anchor) && base <= bit <= MAX_WIRE * BITS_PER_CHARACTER
    ensures TxDeadline(c, anchor, base, bit) == anchor + c.turnaround + Ceil((BITS_PER_CHARACTER + bit - base) * c.hz, BAUD)
    ensures TxDeadline(c, anchor, base, bit) + c.echoAllowance + c.lateTolerance <= MAX64
  {
    hide Ceil, RationalDeadline;
    var n := BITS_PER_CHARACTER + bit - base;
    Scales(n, HORIZON_BITS, c.hz);
    CeilMonotone(n * c.hz, HORIZON_BITS * c.hz, BAUD);
    DeadlineExact(anchor + c.turnaround, n, c.hz, BAUD);
  }

  lemma Scales(a: nat, b: nat, n: nat)
    requires a <= b
    ensures a * n <= b * n
  {
  }

  lemma CeilMonotone(a: nat, b: nat, n: nat)
    requires a <= b && n > 0
    ensures Ceil(a, n) <= Ceil(b, n)
  {
    CeilLe(a, n, Ceil(b, n));
    CeilLe(b, n, Ceil(b, n));
  }

  /** Boundaries of one response are strictly ordered, so its bits leave in order. */
  lemma BoundariesIncrease(c: Config, anchor: nat, base: nat, bit: nat)
    requires BAUD <= c.hz <= MAX64 && ScheduleFits(Reserve(c), anchor) && base <= bit < MAX_WIRE * BITS_PER_CHARACTER
    ensures TxDeadline(c, anchor, base, bit) < TxDeadline(c, anchor, base, bit + 1)
  {
    AdmittedNeverWraps(c, anchor, base, bit);
    AdmittedNeverWraps(c, anchor, base, bit + 1);
    var n := BITS_PER_CHARACTER + bit - base;
    assert (n + 1) * c.hz == n * c.hz + c.hz;
    var d := Ceil(n * c.hz, BAUD);
    if d > 0 {
      CeilLe(n * c.hz, BAUD, d - 1);
      assert d * BAUD == (d - 1) * BAUD + BAUD;
    }
    CeilLe(n * c.hz + c.hz, BAUD, d);
  }

  // ---- The sampler ----

  class Sampler {
    const anchor: nat
    const hz: nat
    var next: nat
    var deadline: nat
    var observations: nat
    var missed: nat

    /** The next deadline is the true one, and every index so far was observed or counted as missed. */
    ghost predicate Sound()
      reads this
    {
      && SAMPLE_RATE <= hz <= MAX64 && anchor <= MAX64
      && deadline == ExactDeadline(anchor, next, hz) <= MAX64
      && observations + missed == next
    }

    /** No index was taken before its time. */
    ghost predicate Paced(now: nat)
      reads this
    {
      SAMPLE_RATE <= hz && anchor <= now <= MAX64 && (next > 0 ==> ExactDeadline(anchor, next - 1, hz) <= now)
    }

    constructor (start: nat, rate: nat)
      requires start <= MAX64 && SAMPLE_RATE <= rate <= MAX64
      ensures Sound() && Paced(start) && anchor == start && hz == rate && next == 0
    {
      anchor, hz, next, deadline, observations, missed := start, rate, 0, start, 0, 0;
    }

    /**
      One poll. The subtraction that counts missed samples wraps like the counter, and so does the
      sum: both are exact as long as the sampler is sound. The index itself is kept unreduced.
      */
    method Poll(now: nat) returns (due: Option<(nat, nat)>)
      requires Paced(now)
      modifies this
      ensures Paced(now)
      ensures due.Some? && due.value.1 == 0 ==> due.value.0 == old(next)
      ensures due.Some? && due.value.0 < old(next) ==>
        due.value.0 == old(next) - 1 && due.value.1 == TWO64 - 1 && missed == (old(missed) + TWO64 - 1) % TWO64
      ensures due.None? <==> now < old(deadline)
      ensures due.None? ==> next == old(next) && deadline == old(deadline) && observations == old(observations) && missed == old(missed)
      ensures due.Some? ==> next == IndexAt(anchor, now, hz) + 1 && due.value.0 == next - 1
      ensures due.Some? ==> due.value.1 == (due.value.0 - old(next)) % TWO64
      ensures old(Sound()) && due.Some? ==>
        && due.value.1 == due.value.0 - old(next) && observations + missed == next
        && (forall i: nat :: ExactDeadline(anchor, i, hz) <= now <==> i <= due.value.0)
      ensures old(Sound()) && due.Some? ==> (Sound() <==> ExactDeadline(anchor, IndexAt(anchor, now, hz) + 1, hz) <= MAX64)
    {
      hide Ceil, RationalDeadline, RationalAt, IndexAt, ExactDeadline;
      if now < deadline { return None; }
      var index := IndexAt(anchor, now, hz);
      var gap := (index - next) % TWO64;
      AtLeastNext(anchor, now, hz, next);
      GapWraps(index, next);
      GreatestDue(anchor, now, hz);
      missed := (missed + gap) % TWO64;
      observations := observations + 1;
      next := index + 1;
      deadline := SampleDeadline(anchor, next, hz);
      DeadlineExact(anchor, next, hz, SAMPLE_RATE);
      ExactIsCeil(anchor, next, hz);
      return Some((index, gap));
    }
  }

  /** The index due at now, and where the next one stands against it. */
  lemma GreatestDue(anchor: nat, now: nat, hz: nat)
    requires anchor <= now <= MAX64 && hz >= SAMPLE_RATE
    ensures forall i: nat :: ExactDeadline(anchor, i, hz) <= now <==> i <= IndexAt(anchor, now, hz)
  {
    hide ExactDeadline, IndexAt;
    forall i: nat
      ensures ExactDeadline(anchor, i, hz) <= now <==> i <= IndexAt(anchor, now, hz)
    {
      IndexIsGreatest(anchor, now, hz, i);
    }
  }

  lemma AtLeastNext(anchor: nat, now: nat, hz: nat, next: nat)
    requires anchor <= now <= MAX64 && hz >= SAMPLE_RATE && (next > 0 ==> ExactDeadline(anchor, next - 1, hz) <= now)
    ensures next <= IndexAt(anchor, now, hz) + 1 && IndexAt(anchor, now, hz) <= MAX64
  {
    hide ExactDeadline, RationalAt;
    if next > 0 { IndexIsGreatest(anchor, now, hz, next - 1); }
    IndexIsQuotient(now - anchor, hz);
  }

  lemma ExactIsCeil(anchor: nat, i: nat, hz: nat)
    requires hz >= SAMPLE_RATE
    ensures ExactDeadline(anchor, i, hz) == anchor + Ceil(i * hz, SAMPLE_RATE)
    ensures SampleDeadline(anchor, i, hz) == RationalDeadline(anchor, i, hz, SAMPLE_RATE)
  {
    hide Ceil, RationalDeadline;
  }

  // ---- The end of the counter ----

  /** The wrapping difference of an index and the one expected next. */
  lemma GapWraps(index: nat, next: nat)
    requires next <= index + 1 && index <= MAX64
    ensures (index - next) % TWO64 == if index >= next then index - next else TWO64 - 1
  {
  }

  /** Successive exact deadlines are less than a counter's length apart. */
  lemma NextDeadlineBound(anchor: nat, i: nat, hz: nat)
    requires SAMPLE_RATE <= hz <= MAX64
    ensures ExactDeadline(anchor, i + 1, hz) <= ExactDeadline(anchor, i, hz) + hz
  {
    var c := Ceil(i * hz, SAMPLE_RATE);
    CeilLe(i * hz, SAMPLE_RATE, c);
    assert (i + 1) * hz == i * hz + hz;
    assert (c + hz) * SAMPLE_RATE == c * SAMPLE_RATE + hz * SAMPLE_RATE >= i * hz + hz;
    CeilLe((i + 1) * hz, SAMPLE_RATE, c + hz);
  }

  lemma WrapsOnce(anchor: nat, whole: nat, extra: nat)
    requires anchor <= MAX64 && whole <= MAX64 && extra <= 1 && MAX64 < anchor + whole + extra
    ensures (anchor + (whole + extra) % TWO64) % TWO64 == anchor + whole + extra - TWO64
  {
  }

  /** What the deadline computes to once the exact one no longer fits. */
  lemma WrappedDeadline(anchor: nat, i: nat, hz: nat)
    requires 0 < anchor <= MAX64 < ExactDeadline(anchor, i, hz)
    ensures SampleDeadline(anchor, i, hz) == if i * hz / SAMPLE_RATE < TWO64 then ExactDeadline(anchor, i, hz) - TWO64 else anchor - 1
  {
    hide Ceil, RationalAt;
    CeilParts(i * hz, SAMPLE_RATE);
    AtParts(i, hz, SAMPLE_RATE);
    var (whole, rest) := RationalAt(i, hz, SAMPLE_RATE);
    WrapsOnce(anchor, whole, if rest != 0 then 1 else 0);
  }

  /** The quotient and remainder, or the saturated value, without the high-word test. */
  lemma AtParts(i: nat, num: nat, den: nat)
    requires den > 0
    ensures RationalAt(i, num, den) == if i * num / den >= TWO64 then (MAX64, 0) else (i * num / den, i * num % den)
  {
    SaturatesIffOverflow(i, num, den);
  }

  /**
    When the next exact deadline does not fit, the computed one is already past: the sampler stays
    due, at the index it has just taken, for every anchor but zero.
    */
  lemma WrappedIsPast(anchor: nat, now: nat, hz: nat)
    requires 0 < anchor <= now <= MAX64 && SAMPLE_RATE <= hz <= MAX64
    requires ExactDeadline(anchor, IndexAt(anchor, now, hz) + 1, hz) > MAX64
    ensures SampleDeadline(anchor, IndexAt(anchor, now, hz) + 1, hz) < now
  {
    hide Ceil, RationalDeadline, RationalAt;
    var i := IndexAt(anchor, now, hz);
    IndexIsGreatest(anchor, now, hz, i);
    NextDeadlineBound(anchor, i, hz);
    WrappedDeadline(anchor, i + 1, hz);
  }

  /** It does happen: at the nominal rate, for every anchor a response schedule admits, at the last tick. */
  lemma LastTickWraps(anchor: nat)
    requires 0 < anchor <= MAX64
    ensures IndexAt(anchor, MAX64, SAMPLE_RATE) == MAX64 - anchor
    ensures ExactDeadline(anchor, MAX64 - anchor + 1, SAMPLE_RATE) == TWO64 > MAX64
    ensures SampleDeadline(anchor, MAX64 - anchor + 1, SAMPLE_RATE) == 0
  {
    var d := MAX64 - anchor;
    IndexIsQuotient(d, SAMPLE_RATE);
    CeilParts((d + 1) * SAMPLE_RATE, SAMPLE_RATE);
    SaturatesIffOverflow(d + 1, SAMPLE_RATE, SAMPLE_RATE);
  }
}
