/**
  The wire decoder: escape pairs back to symbols, with a bounded number of raw SYNs absorbed inside
  a pair and a cap on how long a pair may take. Instants are nanoseconds; None is the zero time of
  callers without a clock.
  */
module EscapeDecoder {
  import opened Octets
  import opened TelegramFsm
  import Wire

  const TIMEOUT := 32_000_000
  const BUDGET := 8

  type Instant = Option<int>

  datatype Kind = NoEvent | PendingTimeout | Recovery | BudgetExhausted

  /** duration is how long the pair had been open, in nanoseconds. */
  datatype Event = Event(kind: Kind, absorbed: nat, duration: int)

  const QUIET := Event(NoEvent, 0, 0)

  const MAX_DURATION := 0x7FFF_FFFF_FFFF_FFFF
  const MIN_DURATION := -0x8000_0000_0000_0000

  datatype Pending = Normal | Escaping(lead: Instant, absorbed: nat)

  datatype Read = Read(value: byte, at: Instant)

  datatype Output = Output(symbol: Option<Symbol>, event: Event)

  /** A difference of instants saturates; the zero time lies further before every other than it can say. */
  function Elapsed(lead: Instant, now: Instant): int {
    if lead.None? then 0
    else if now.None? || now.value - lead.value < MIN_DURATION then MIN_DURATION
    else if now.value - lead.value > MAX_DURATION then MAX_DURATION
    else now.value - lead.value
  }

  /** The cap needs a clock at the lead. */
  predicate TooLate(lead: Instant, now: Instant) {
    lead.Some? && Elapsed(lead, now) > TIMEOUT
  }

  function DecodeNormal(r: Read): (Pending, Option<Symbol>) {
    if r.value == ESC then (Escaping(r.at, 0), None) else (Normal, Some(Symbol(r.value, false)))
  }

  function Decode(p: Pending, r: Read): (Pending, Output) {
    match p
    case Normal => var (n, s) := DecodeNormal(r); (n, Output(s, QUIET))
    case Escaping(lead, absorbed) =>
      if TooLate(lead, r.at) then var (n, s) := DecodeNormal(r); (n, Output(s, Event(PendingTimeout, absorbed, Elapsed(lead, r.at))))
      else if r.value == 1 then (Normal, Output(Some(Symbol(SYN, true)), QUIET))
      else if r.value == 0 then (Normal, Output(Some(Symbol(ESC, true)), QUIET))
      else if r.value != SYN then (Normal, Output(None, Event(Recovery, absorbed, Elapsed(lead, r.at))))
      else if absorbed < BUDGET then (Escaping(lead, absorbed + 1), Output(None, QUIET))
      else (Normal, Output(None, Event(BudgetExhausted, absorbed, Elapsed(lead, r.at))))
  }

  class Decoder {
    var escape: bool
    var leadObservedAt: Instant
    var absorbedCount: nat

    ghost predicate Valid()
      reads this
    {
      !escape ==> leadObservedAt.None? && absorbedCount == 0
    }

    ghost function Value(): Pending
      reads this
    {
      if escape then Escaping(leadObservedAt, absorbedCount) else Normal
    }

    constructor ()
      ensures Valid() && Value() == Normal
    {
      escape, leadObservedAt, absorbedCount := false, None, 0;
    }

    method Reset()
      modifies this
      ensures Valid() && Value() == Normal
    {
      escape, leadObservedAt, absorbedCount := false, None, 0;
    }

    method Feed(r: Read) returns (out: Output)
      requires Valid()
      modifies this
      ensures Valid() && (Value(), out) == Decode(old(Value()), r)
    {
      if escape { out := FeedPending(r); } else { var s := FeedNormal(r); out := Output(s, QUIET); }
    }

    method FeedNormal(r: Read) returns (s: Option<Symbol>)
      requires Valid() && !escape
      modifies this
      ensures Valid() && (Value(), s) == DecodeNormal(r)
    {
      if r.value == ESC {
        escape, leadObservedAt, absorbedCount := true, r.at, 0;
        return None;
      }
      return Some(Symbol(r.value, false));
    }

    method FeedPending(r: Read) returns (out: Output)
      requires Valid() && escape
      modifies this
      ensures Valid() && (Value(), out) == Decode(old(Value()), r)
    {
      var absorbed, elapsed := absorbedCount, Elapsed(leadObservedAt, r.at);
      if TooLate(leadObservedAt, r.at) {
        Reset();
        var s := FeedNormal(r);
        return Output(s, Event(PendingTimeout, absorbed, elapsed));
      }
      if r.value == 1 {
        Reset();
        return Output(Some(Symbol(SYN, true)), QUIET);
      }
      if r.value == 0 {
        Reset();
        return Output(Some(Symbol(ESC, true)), QUIET);
      }
      if r.value == SYN && absorbedCount < BUDGET {
        absorbedCount := absorbedCount + 1;
        return Output(None, QUIET);
      }
      Reset();
      return Output(None, Event(if r.value == SYN then BudgetExhausted else Recovery, absorbed, elapsed));
    }
  }

  /** After a recovery or an exhausted budget the decoder is normal; after a timeout it has restarted. */
  lemma FaultLeavesNormal(p: Pending, r: Read)
    ensures var (n, out) := Decode(p, r);
      && (out.event.kind.Recovery? || out.event.kind.BudgetExhausted? ==> n == Normal && out.symbol.None?)
      && (out.event.kind.PendingTimeout? ==> Decode(Normal, r) == (n, out.(event := QUIET)))
      && (out.event.kind.PendingTimeout? ==> out.event.duration > TIMEOUT)
      && (!out.event.kind.NoEvent? ==> p.Escaping? && out.event.absorbed == p.absorbed && out.event.duration == Elapsed(p.lead, r.at))
  {
  }

  // ---- Whole streams ----

  function Fold(p: Pending, w: seq<Read>): Pending
    decreases w
  {
    if w == [] then p else Fold(Decode(p, w[0]).0, w[1..])
  }

  function Symbols(p: Pending, w: seq<Read>): seq<Symbol>
    decreases w
  {
    if w == [] then []
    else
      var (n, out) := Decode(p, w[0]);
      (match out.symbol case None => [] case Some(s) => [s]) + Symbols(n, w[1..])
  }

  predicate Quiet(p: Pending, w: seq<Read>)
    decreases w
  {
    w == [] || (Decode(p, w[0]).1.event.kind.NoEvent? && Quiet(Decode(p, w[0]).0, w[1..]))
  }

  lemma FoldOn(p: Pending, a: seq<Read>, b: seq<Read>)
    ensures Fold(p, a + b) == Fold(Fold(p, a), b)
    ensures Symbols(p, a + b) == Symbols(p, a) + Symbols(Fold(p, a), b)
    ensures Quiet(p, a + b) <==> Quiet(p, a) && Quiet(Fold(p, a), b)
  {
    hide Fold, Symbols, Quiet;
    StateOn(p, a, b);
    SymbolsOn(p, a, b);
    QuietOn(p, a, b);
  }

  lemma {:induction false} StateOn(p: Pending, a: seq<Read>, b: seq<Read>)
    ensures Fold(p, a + b) == Fold(Fold(p, a), b)
    decreases a
  {
    hide Decode;
    if a == [] {
      assert a + b == b;
    } else {
      assert (a + b)[0] == a[0] && (a + b)[1..] == a[1..] + b;
      StateOn(Decode(p, a[0]).0, a[1..], b);
    }
  }

  lemma {:induction false} QuietOn(p: Pending, a: seq<Read>, b: seq<Read>)
    ensures Quiet(p, a + b) <==> Quiet(p, a) && Quiet(Fold(p, a), b)
    decreases a
  {
    hide Decode;
    if a == [] {
      assert a + b == b;
    } else {
      assert (a + b)[0] == a[0] && (a + b)[1..] == a[1..] + b;
      QuietOn(Decode(p, a[0]).0, a[1..], b);
    }
  }

  function Emitted(out: Output): seq<Symbol> {
    match out.symbol case None => [] case Some(s) => [s]
  }

  lemma SymbolsStep(p: Pending, w: seq<Read>)
    requires w != []
    ensures Symbols(p, w) == Emitted(Decode(p, w[0]).1) + Symbols(Decode(p, w[0]).0, w[1..])
  {
    hide Decode;
  }

  lemma {:induction false} SymbolsOn(p: Pending, a: seq<Read>, b: seq<Read>)
    ensures Symbols(p, a + b) == Symbols(p, a) + Symbols(Fold(p, a), b)
    decreases a
  {
    hide Decode, Emitted;
    if a == [] {
      assert a + b == b && Symbols(p, a) == [];
    } else {
      var n := Decode(p, a[0]).0;
      assert (a + b)[0] == a[0] && (a + b)[1..] == a[1..] + b;
      SymbolsOn(n, a[1..], b);
      SymbolsStep(p, a);
      SymbolsStep(p, a + b);
      assert Fold(p, a) == Fold(n, a[1..]);
      hide Symbols, Fold;
    }
  }

  /** One symbol on the wire: a plain octet, or a pair with the instants of the SYNs injected into it. */
  datatype Item = Plain(value: byte, at: Instant) | Pair(lead: Instant, injected: seq<Instant>, low: bool, end: Instant) {
    function Wire(): seq<Read> {
      match this
      case Plain(b, at) => [Read(b, at)]
      case Pair(lead, injected, low, end) =>
        [Read(ESC, lead)] + Injections(injected) + [Read(if low then 0 else 1, end)]
    }

    function Meaning(): Symbol {
      match this
      case Plain(b, _) => Symbol(b, false)
      case Pair(_, _, low, _) => Symbol(if low then ESC else SYN, true)
    }

    /** At most eight injections, and nothing later than the cap allows. */
    predicate Proper() {
      match this
      case Plain(b, _) => b != ESC
      case Pair(lead, injected, _, end) =>
        |injected| <= BUDGET && !TooLate(lead, end) && forall i :: 0 <= i < |injected| ==> !TooLate(lead, injected[i])
    }
  }

  function WireOf(items: seq<Item>): seq<Read> {
    if items == [] then [] else items[0].Wire() + WireOf(items[1..])
  }

  function MeaningOf(items: seq<Item>): seq<Symbol> {
    if items == [] then [] else [items[0].Meaning()] + MeaningOf(items[1..])
  }

  predicate Proper(items: seq<Item>) {
    forall i :: 0 <= i < |items| ==> items[i].Proper()
  }

  function Injections(at: seq<Instant>): seq<Read> {
    seq(|at|, i requires 0 <= i < |at| => Read(SYN, at[i]))
  }

  /** Injections inside a pair are absorbed without a trace as long as the budget and the cap hold. */
  lemma {:induction false} Absorbs(lead: Instant, absorbed: nat, at: seq<Instant>)
    requires absorbed + |at| <= BUDGET && forall i :: 0 <= i < |at| ==> !TooLate(lead, at[i])
    ensures var w := Injections(at); var p := Escaping(lead, absorbed);
      Fold(p, w) == Escaping(lead, absorbed + |at|) && Symbols(p, w) == [] && Quiet(p, w)
    decreases at
  {
    if at != [] {
      assert Injections(at)[1..] == Injections(at[1..]);
      Absorbs(lead, absorbed + 1, at[1..]);
    }
  }

  lemma OneRead(p: Pending, r: Read)
    ensures Fold(p, [r]) == Decode(p, r).0 && (Quiet(p, [r]) <==> Decode(p, r).1.event.kind.NoEvent?)
    ensures Symbols(p, [r]) == match Decode(p, r).1.symbol case None => [] case Some(s) => [s]
  {
    hide Decode;
    assert [r][1..] == [];
    assert Fold(Decode(p, r).0, []) == Decode(p, r).0 && Symbols(Decode(p, r).0, []) == [];
  }

  lemma ItemDecodes(it: Item)
    requires it.Proper()
    ensures Fold(Normal, it.Wire()) == Normal && Symbols(Normal, it.Wire()) == [it.Meaning()] && Quiet(Normal, it.Wire())
  {
    hide Fold, Symbols, Quiet;
    match it
    case Plain(b, at) => OneRead(Normal, Read(b, at));
    case Pair(lead, injected, low, end) =>
      var first, mid, last := Read(ESC, lead), Injections(injected), Read(if low then 0 else 1, end);
      OneRead(Normal, first);
      Absorbs(lead, 0, injected);
      OneRead(Escaping(lead, |injected|), last);
      FoldOn(Normal, [first], mid);
      FoldOn(Normal, [first] + mid, [last]);
      assert it.Wire() == [first] + mid + [last];
  }

  /** Every stream of proper items decodes to exactly its meaning, without an event. */
  lemma {:induction false} ProperDecodes(items: seq<Item>)
    requires Proper(items)
    ensures var w := WireOf(items);
      Fold(Normal, w) == Normal && Symbols(Normal, w) == MeaningOf(items) && Quiet(Normal, w)
    decreases items
  {
    hide Decode;
    if items != [] {
      ItemDecodes(items[0]);
      ProperDecodes(items[1..]);
      FoldOn(Normal, items[0].Wire(), WireOf(items[1..]));
    }
  }

  // ---- Only such streams decode quietly ----

  /** A quiet stream that ends outside a pair is a stream of proper items. */
  lemma {:induction false} QuietIsProper(w: seq<Read>) returns (items: seq<Item>)
    requires Quiet(Normal, w) && Fold(Normal, w) == Normal
    ensures Proper(items) && WireOf(items) == w
    decreases |w|
  {
    hide Injections;
    if w == [] {
      items := [];
    } else if w[0].value != ESC {
      var rest := QuietIsProper(w[1..]);
      items := [Plain(w[0].value, w[0].at)] + rest;
      Prepended(items[0], rest);
    } else {
      var k := PairEnds(w[0].at, 0, w[1..]);
      assert w[1..][k + 1..] == w[k + 2..];
      var it := PairOf(w, k);
      var rest := QuietIsProper(w[k + 2..]);
      items := [it] + rest;
      Prepended(it, rest);
      assert w == w[..k + 2] + w[k + 2..];
    }
  }

  lemma PairOf(w: seq<Read>, k: nat) returns (it: Item)
    requires k + 2 <= |w| && k <= BUDGET && w[0].value == ESC && w[1..][k].value <= 1 && !TooLate(w[0].at, w[1..][k].at)
    requires forall i :: 0 <= i < k ==> w[1..][i].value == SYN && !TooLate(w[0].at, w[1..][i].at)
    ensures it.Proper() && it.Wire() == w[..k + 2]
  {
    var rest := w[1..];
    var at := seq(k, i requires 0 <= i < k => rest[i].at);
    it := Pair(w[0].at, at, rest[k].value == 0, rest[k].at);
    assert Injections(at) == rest[..k];
    assert w[..k + 2] == [w[0]] + rest[..k] + [rest[k]];
  }

  lemma Prepended(it: Item, rest: seq<Item>)
    ensures WireOf([it] + rest) == it.Wire() + WireOf(rest)
  {
    assert ([it] + rest)[1..] == rest;
  }

  /** Where a quietly completed pair ends: after at most eight SYNs, with its second octet. */
  lemma {:induction false} PairEnds(lead: Instant, absorbed: nat, w: seq<Read>) returns (k: nat)
    requires absorbed <= BUDGET && Quiet(Escaping(lead, absorbed), w) && Fold(Escaping(lead, absorbed), w) == Normal
    ensures k < |w| && absorbed + k <= BUDGET && w[k].value <= 1 && !TooLate(lead, w[k].at)
    ensures forall i :: 0 <= i < k ==> w[i].value == SYN && !TooLate(lead, w[i].at)
    ensures Quiet(Normal, w[k + 1..]) && Fold(Normal, w[k + 1..]) == Normal
    decreases w
  {
    if w[0].value <= 1 {
      k := 0;
    } else {
      var j := PairEnds(lead, absorbed + 1, w[1..]);
      k := j + 1;
      assert w[k..] == w[1..][j..] && w[k + 1..] == w[1..][j + 1..];
      assert forall i :: 1 <= i <= k ==> w[i] == w[1..][i - 1];
    }
  }

  // ---- Escaped bytes come back ----

  /** The item carries this logical byte the way the encoder writes it. */
  predicate Carries(it: Item, b: byte) {
    if b == ESC || b == SYN then it.Pair? && it.low == (b == ESC) else it.Plain? && it.value == b
  }

  predicate CarriesAll(items: seq<Item>, logical: seq<byte>) {
    |items| == |logical| && forall i :: 0 <= i < |items| ==> Carries(items[i], logical[i])
  }

  /** The wire without what was injected inside pairs. */
  function Uninjected(items: seq<Item>): seq<byte> {
    if items == [] then []
    else (match items[0] case Plain(b, _) => [b] case Pair(_, _, low, _) => [ESC, if low then 0 else 1]) + Uninjected(items[1..])
  }

  /** Escaped bytes, with up to eight SYNs injected into each pair in time, decode to the original. */
  lemma {:induction false} EscapedBytesDecode(logical: seq<byte>, items: seq<Item>)
    requires CarriesAll(items, logical) && Proper(items)
    ensures Uninjected(items) == Wire.Escape(logical)
    ensures Fold(Normal, WireOf(items)) == Normal && Quiet(Normal, WireOf(items))
    ensures Symbols(Normal, WireOf(items)) == Tagged(logical)
    decreases logical
  {
    hide Fold, Symbols, Quiet, Decode, WireOf;
    ProperDecodes(items);
    TaggedIsMeaning(logical, items);
    UninjectedIsEscaped(logical, items);
  }

  /** Logical bytes with the flag that tells which of them travelled as a pair. */
  function Tagged(logical: seq<byte>): seq<Symbol> {
    seq(|logical|, i requires 0 <= i < |logical| => Symbol(logical[i], logical[i] == ESC || logical[i] == SYN))
  }

  lemma {:induction false} TaggedIsMeaning(logical: seq<byte>, items: seq<Item>)
    requires CarriesAll(items, logical)
    ensures MeaningOf(items) == Tagged(logical)
    decreases logical
  {
    if logical != [] {
      TaggedIsMeaning(logical[1..], items[1..]);
      assert Tagged(logical) == [Tagged(logical)[0]] + Tagged(logical[1..]);
    }
  }

  lemma {:induction false} UninjectedIsEscaped(logical: seq<byte>, items: seq<Item>)
    requires CarriesAll(items, logical)
    ensures Uninjected(items) == Wire.Escape(logical)
    decreases logical
  {
    if logical != [] { UninjectedIsEscaped(logical[1..], items[1..]); }
  }
}
