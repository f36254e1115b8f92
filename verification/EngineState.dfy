/** The AA25 bit engine: its state, and what every step keeps. */
module EngineState {
  import opened Octets
  import opened Ticks
  import Address
  import Crc
  import Wire

  datatype Level = Low | High

  datatype RxState = Resync | Hunt | Character | StopTail

  datatype FramePhase = Unsynced | AtSource | AtTarget | AtPB | AtSB | AtNN | AtData | AtCrc | Trailing

  datatype TxState = Idle | Waiting | Active | AwaitAck

  /** A prepared response: the request shape it answers and the raw symbols from the ACK on. */
  datatype Prepared = Prepared(generation: nat, pb: byte, sb: byte, nn: byte, wire: seq<byte>)

  datatype Control = Offer(response: Prepared) | Withdraw

  /** shift holds the data bits decided so far, the least significant first. */
  datatype Rx = Rx(
    state: RxState, previous: Level, idleRun: nat, startIndex: nat, startTick: nat, echo: bool, votes: nat,
    shift: seq<bool>, finalComplete: bool)

  datatype Frame = Frame(phase: FramePhase, escape: bool, crc: byte, source: byte, pb: byte, sb: byte, nn: byte, left: byte)

  datatype Tx = Tx(
    state: TxState, anchor: nat, bit: nat, base: nat, retried: bool, cancel: bool, ackSince: nat, level: Level, echo: nat)

  datatype Loss = Loss(pending: bool, applied: bool, dropped: nat, asked: nat)

  const RESYNC_SAMPLES := 100
  const CONTROL_CAPACITY := 4
  const MAX_REQUEST_NN := 16

  /** What AA25PrepareResponse makes. */
  ghost predicate Made(p: Prepared) {
    p.generation > 0 && exists payload: seq<byte> :: |payload| <= Wire.MAX_PREPARED_PAYLOAD && p.wire == [ACK] + Wire.Response(payload)
  }

  ghost predicate AllMade(offers: set<Prepared>) {
    forall p :: p in offers ==> Made(p)
  }

  predicate Ready(p: Prepared) {
    p.generation > 0 && 2 <= |p.wire| <= MAX_WIRE && p.wire[0] == ACK && SYN !in p.wire
  }

  lemma MadeIsReady(p: Prepared)
    requires Made(p)
    ensures Ready(p)
  {
    var payload :| |payload| <= Wire.MAX_PREPARED_PAYLOAD && p.wire == [ACK] + Wire.Response(payload);
    var s := Wire.Segment(payload);
    var logical := s + [Wire.LogicalCrc(s)];
    Wire.EscapeHasNoSyn(logical);
    Wire.EscapeLength(logical);
  }

  // ---- Bits of a symbol ----

  function BitOf(b: nat, k: nat): bool {
    if k == 0 then b % 2 == 1 else BitOf(b / 2, k - 1)
  }

  function FromBits(s: seq<bool>): nat {
    if s == [] then 0 else (if s[0] then 1 else 0) + 2 * FromBits(s[1..])
  }

  function Pow2(n: nat): nat {
    if n == 0 then 1 else 2 * Pow2(n - 1)
  }

  lemma {:induction false} FromBitsFits(s: seq<bool>)
    ensures FromBits(s) < Pow2(|s|)
    decreases s
  {
    if s != [] { FromBitsFits(s[1..]); }
  }

  /** Eight bits make a symbol. */
  function SymbolOf(s: seq<bool>): (b: byte)
    requires |s| == 8
  {
    FromBitsFits(s);
    assert Pow2(8) == 256;
    FromBits(s)
  }

  predicate Matches(s: seq<bool>, b: nat) {
    forall k :: 0 <= k < |s| ==> s[k] == BitOf(b, k)
  }

  lemma {:induction false} MatchedBits(s: seq<bool>, b: nat)
    requires b < Pow2(|s|) && Matches(s, b)
    ensures FromBits(s) == b
    decreases s
  {
    if s != [] {
      assert s[0] == BitOf(b, 0);
      forall k | 0 <= k < |s| - 1
        ensures s[1..][k] == BitOf(b / 2, k)
      {
        assert s[k + 1] == BitOf(b, k + 1);
      }
      MatchedBits(s[1..], b / 2);
    }
  }

  /** Eight matching bits are the symbol. */
  lemma MatchedSymbol(s: seq<bool>, b: byte)
    requires |s| == 8 && Matches(s, b)
    ensures SymbolOf(s) == b
  {
    assert Pow2(8) == 256;
    MatchedBits(s, b);
  }

  /** A start bit, eight data bits, a stop bit. */
  function BitLevel(wire: seq<byte>, bit: nat): Level
    requires bit < BITS_PER_CHARACTER * |wire|
  {
    var position := bit % BITS_PER_CHARACTER;
    if position == 0 then Low
    else if position == BITS_PER_CHARACTER - 1 then High
    else if BitOf(wire[bit / BITS_PER_CHARACTER], position - 1) then High else Low
  }

  /** The level the line must have once the bits from base up to bit were driven. */
  function LineLevel(wire: seq<byte>, base: nat, bit: nat): Level
    requires base <= bit <= BITS_PER_CHARACTER * |wire|
  {
    if bit == base then High else BitLevel(wire, bit - 1)
  }

  /** Symbols begun by boundary bit. */
  function Begun(bit: nat): nat {
    (bit + BITS_PER_CHARACTER - 1) / BITS_PER_CHARACTER
  }

  /** Data bits decided before the sample at this offset of a character. */
  function Decided(offset: nat): nat {
    if offset < 17 then 0 else if offset >= 87 then 8 else (offset - 7) / 10
  }

  // ---- Invariants ----

  /** Edges alternate, starting from a high line, and end at the line's level. */
  predicate EdgesSound(edges: seq<Level>, level: Level) {
    && (forall i :: 0 <= i < |edges| ==> edges[i] == if i % 2 == 0 then Low else High)
    && (level.High? <==> |edges| % 2 == 0)
  }

  ghost predicate ExchangeSound(tx: Tx, pinned: Prepared, reserve: nat) {
    && Ready(pinned)
    && tx.base == (if tx.retried then BITS_PER_CHARACTER else 0)
    && tx.base <= tx.bit <= BITS_PER_CHARACTER * |pinned.wire|
    && tx.base <= BITS_PER_CHARACTER * tx.echo && tx.echo <= Begun(tx.bit)
    && (tx.state.Waiting? ==> tx.bit == tx.base && tx.level.High?)
    && (tx.state.Active? ==> tx.level == LineLevel(pinned.wire, tx.base, tx.bit))
    && (tx.state.AwaitAck? ==> tx.level.High?)
    && (!tx.state.AwaitAck? ==> ScheduleFits(reserve, tx.anchor))
  }

  /** The line is low only in an active response, where it carries exactly the pinned symbols. */
  ghost predicate LineSound(tx: Tx, pinned: Prepared, reserve: nat) {
    if tx.state.Idle? then tx.level.High? else ExchangeSound(tx, pinned, reserve)
  }

  /** Transmissions begun for the current admission: one response, and one more after a retry. */
  predicate SentSound(tx: Tx, sent: nat) {
    match tx.state
    case Idle => sent <= 2
    case Waiting => sent == (if tx.retried then 1 else 0)
    case Active => sent == (if tx.retried then 2 else 1)
    case AwaitAck => sent == (if tx.retried then 2 else 1)
  }

  /** What was read since the SYN that opened the frame: raw symbols, logical bytes, the CRC received. */
  datatype Log = Log(raw: seq<byte>, logical: seq<byte>, verdict: Option<byte>)

  const NO_LOG := Log([], [], None)

  /** The request proper, its CRC included. */
  predicate Body(p: FramePhase) {
    p.AtSource? || p.AtTarget? || AfterTarget(p)
  }

  predicate AfterTarget(p: FramePhase) {
    p.AtPB? || p.AtSB? || p.AtNN? || p.AtData? || p.AtCrc?
  }

  /** The fields read so far are the logical bytes in order: source, target, PB, SB, NN, data. */
  predicate Fields(f: Frame, s: seq<byte>) {
    match f.phase
    case AtSource => s == []
    case AtTarget => s == [f.source]
    case AtPB => |s| == 2 && s[0] == f.source
    case AtSB => |s| == 3 && s[0] == f.source && s[2] == f.pb
    case AtNN => |s| == 4 && s[0] == f.source && s[2] == f.pb && s[3] == f.sb
    case AtData => |s| + f.left == 5 + f.nn && 0 < f.left <= f.nn <= MAX_REQUEST_NN && s[0] == f.source && s[2..5] == [f.pb, f.sb, f.nn]
    case AtCrc => |s| == 5 + f.nn && s[0] == f.source && s[2..5] == [f.pb, f.sb, f.nn]
    case _ => true
  }

  /** The CRC is that of the escaped request so far, an open escape prefix included. */
  ghost predicate SumSound(f: Frame, k: Log) {
    Body(f.phase) ==>
      && f.crc == Crc.Run(0, k.raw) && Fields(f, k.logical)
      && k.raw == Wire.Escape(k.logical) + if f.escape && !f.phase.AtCrc? then [ESC] else []
  }

  /** Sent by an initiator to this address. */
  predicate Own(s: seq<byte>, address: byte) {
    |s| >= 2 && Address.IsInitiator(s[0]) && s[1] == address
  }

  /** A whole request to this address, of the shape the response is for, whose CRC was right. */
  predicate Answered(k: Log, pinned: Prepared, address: byte) {
    && Own(k.logical, address) && |k.logical| == 5 + pinned.nn
    && k.logical[2..5] == [pinned.pb, pinned.sb, pinned.nn]
    && k.verdict == Some(Wire.LogicalCrc(k.logical))
  }

  /**
    A pin reserves an offered response for the request under way, and only after its target matched;
    during an exchange the request is over and was answered rightly, so nothing else can be admitted.
    */
  ghost predicate PinSound(f: Frame, tx: Tx, pinned: Prepared, pinnedValid: bool, k: Log, offers: set<Prepared>, address: byte) {
    && (tx.state.Idle? && pinnedValid ==> AfterTarget(f.phase) && Own(k.logical, address) && pinned in offers)
    && (!tx.state.Idle? ==> pinnedValid && f.phase.Trailing? && Answered(k, pinned, address) && pinned in offers)
  }

  /** A character seen during transmission is an echo and agrees so far with the symbol it echoes. */
  ghost predicate ReceiveSound(rx: Rx, tx: Tx, pinned: Prepared, at: nat) {
    && (rx.state.StopTail? ==> rx.startIndex < at)
    && (rx.state.Character? ==>
          && !rx.finalComplete && rx.startIndex < at <= rx.startIndex + 96 && |rx.shift| == Decided(at - rx.startIndex)
          && !tx.state.Waiting?
          && (tx.state.Active? ==> rx.echo && tx.echo < Begun(tx.bit) && tx.echo < |pinned.wire| && Matches(rx.shift, pinned.wire[tx.echo])))
  }

  /** The last of the three central samples of a bit, counted from the start of the character. */
  function LastSample(bit: nat): nat {
    10 * bit + 6
  }

  function HighAt(heard: seq<Level>, i: nat): nat
    requires i < |heard|
  {
    if heard[i].High? then 1 else 0
  }

  /** Two of the three central samples of this bit are high. */
  predicate MajorityHigh(heard: seq<Level>, bit: nat)
    requires LastSample(bit) < |heard|
  {
    var last := LastSample(bit);
    HighAt(heard, last - 2) + HighAt(heard, last - 1) + HighAt(heard, last) >= 2
  }

  /** High central samples of the bit under way. */
  function OpenVotes(heard: seq<Level>): nat {
    var n := |heard|;
    var position := n % 10;
    if position == 5 then HighAt(heard, n - 1)
    else if position == 6 then HighAt(heard, n - 2) + HighAt(heard, n - 1)
    else 0
  }

  /** Data bit k was decided by the majority of its central samples. */
  ghost predicate ByMajority(shift: seq<bool>, heard: seq<Level>, k: nat)
    requires k < |shift|
  {
    LastSample(k + 1) < |heard| && shift[k] == MajorityHigh(heard, k + 1)
  }

  /** A character under way: its decided bits are the majorities of the samples heard since its start. */
  ghost predicate HeardSound(rx: Rx, heard: seq<Level>, at: nat) {
    rx.state.Character? ==>
      && rx.startIndex <= at && |heard| == at - rx.startIndex && rx.votes == OpenVotes(heard)
      && (|heard| >= 7 ==> !MajorityHigh(heard, 0))
      && forall k :: 0 <= k < |rx.shift| ==> ByMajority(rx.shift, heard, k)
  }

  /** At the last central sample of a bit: what was decided before it, and the vote on it. */
  ghost predicate Deciding(rx: Rx, heard: seq<Level>, index: nat, high: bool) {
    && rx.startIndex < index <= rx.startIndex + 96 && (index - rx.startIndex) % 10 == 6
    && |heard| == index + 1 - rx.startIndex && rx.votes == 0
    && high == MajorityHigh(heard, (index - rx.startIndex) / 10)
    && (index - rx.startIndex > 6 ==> !MajorityHigh(heard, 0))
    && forall k :: 0 <= k < |rx.shift| ==> ByMajority(rx.shift, heard, k)
  }

  /** The eight data bits of a whole character, by majority. */
  function Majorities(heard: seq<Level>): (s: seq<bool>)
    requires |heard| >= 97
    ensures |s| == 8
  {
    seq(8, k requires 0 <= k < 8 => MajorityHigh(heard, k + 1))
  }

  lemma MajorityKept(heard: seq<Level>, level: Level, bit: nat)
    requires LastSample(bit) < |heard|
    ensures MajorityHigh(heard + [level], bit) == MajorityHigh(heard, bit)
  {
  }

  lemma HeardMore(rx: Rx, heard: seq<Level>, level: Level, at: nat)
    requires HeardSound(rx, heard, at) && rx.state.Character?
    ensures forall k :: 0 <= k < |rx.shift| ==> ByMajority(rx.shift, heard + [level], k)
    ensures |heard| >= 7 ==> !MajorityHigh(heard + [level], 0)
  {
    hide MajorityHigh, OpenVotes;
    forall k | 0 <= k < |rx.shift|
      ensures ByMajority(rx.shift, heard + [level], k)
    {
      assert ByMajority(rx.shift, heard, k);
      MajorityKept(heard, level, k + 1);
    }
    if |heard| >= 7 { MajorityKept(heard, level, 0); }
  }

  /** Eight decided bits are the majorities of the whole character. */
  lemma AllByMajority(shift: seq<bool>, heard: seq<Level>)
    requires |shift| == 8 && |heard| >= 97 && forall k :: 0 <= k < |shift| ==> ByMajority(shift, heard, k)
    ensures shift == Majorities(heard)
  {
    forall k | 0 <= k < 8
      ensures shift[k] == Majorities(heard)[k]
    {
      assert ByMajority(shift, heard, k);
    }
  }

  lemma OneMoreBit(shift: seq<bool>, heard: seq<Level>, high: bool)
    requires forall k :: 0 <= k < |shift| ==> ByMajority(shift, heard, k)
    requires LastSample(|shift| + 1) < |heard| && high == MajorityHigh(heard, |shift| + 1)
    ensures forall k :: 0 <= k < |shift| + 1 ==> ByMajority(shift + [high], heard, k)
  {
    hide MajorityHigh;
    forall k | 0 <= k < |shift| + 1
      ensures ByMajority(shift + [high], heard, k)
    {
      if k < |shift| { assert ByMajority(shift, heard, k); }
    }
  }

  /** One more sample: central ones are votes, and the third decides. */
  lemma VoteMore(heard: seq<Level>, level: Level)
    ensures var p := |heard| % 10;
      var vote := if level.High? then 1 else 0;
      && (p < 4 || p > 6 ==> OpenVotes(heard) == 0 && OpenVotes(heard + [level]) == 0)
      && (p == 4 || p == 5 ==> OpenVotes(heard + [level]) == OpenVotes(heard) + vote)
      && (p == 6 ==> OpenVotes(heard + [level]) == 0 &&
                     (OpenVotes(heard) + vote >= 2 <==> MajorityHigh(heard + [level], |heard| / 10)))
  {
  }

  /** The stocked response and the queued ones were all offered. */
  ghost predicate StockSound(slot: Prepared, slotValid: bool, pinned: Prepared, pinnedValid: bool, controls: seq<Control>, offers: set<Prepared>) {
    && (slotValid ==> Ready(slot) && slot in offers) && (pinnedValid ==> Ready(pinned))
    && |controls| <= CONTROL_CAPACITY
    && forall i :: 0 <= i < |controls| && controls[i].Offer? ==> Ready(controls[i].response) && controls[i].response in offers
  }

  /** Without an offer nothing can ever be transmitted. */
  ghost predicate PassiveSound(offers: set<Prepared>, slotValid: bool, pinnedValid: bool, tx: Tx, controls: seq<Control>, edges: seq<Level>) {
    offers == {} ==>
      && !slotValid && !pinnedValid && tx.state.Idle? && edges == []
      && forall i :: 0 <= i < |controls| ==> controls[i].Withdraw?
  }

  // ---- Small steps of the line ----

  lemma LastBitIsHigh(wire: seq<byte>, base: nat)
    requires base <= BITS_PER_CHARACTER * |wire|
    ensures LineLevel(wire, base, BITS_PER_CHARACTER * |wire|) == High
  {
  }

  lemma BegunWhole(n: nat)
    ensures Begun(BITS_PER_CHARACTER * n) == n
  {
  }

  lemma BegunGrows(bit: nat)
    ensures Begun(bit) <= Begun(bit + 1)
  {
  }

  lemma BegunWithin(bit: nat, n: nat)
    requires bit <= BITS_PER_CHARACTER * n
    ensures Begun(bit) <= n
  {
  }

  // ---- Reading the request ----

  lemma FieldFacts(f: Frame, s: seq<byte>)
    requires Fields(f, s)
    ensures AfterTarget(f.phase) ==> |s| >= 2
    ensures f.phase.AtData? ==> f.left > 0
  {
  }

  /** The next logical byte fills the next field. */
  lemma FieldRead(f: Frame, g: Frame, s: seq<byte>, value: byte)
    requires Fields(f, s) && Body(f.phase) && !f.phase.AtCrc?
    requires match f.phase
      case AtSource => g == f.(source := value, phase := AtTarget)
      case AtTarget => g == f.(phase := AtPB)
      case AtPB => g == f.(pb := value, phase := AtSB)
      case AtSB => g == f.(sb := value, phase := AtNN)
      case AtNN => value <= MAX_REQUEST_NN && g == f.(nn := value, left := value, phase := if value == 0 then AtCrc else AtData)
      case AtData => g == f.(left := f.left - 1, phase := if f.left == 1 then AtCrc else AtData)
      case _ => false
    ensures Fields(g, s + [value])
    ensures forall i :: 0 <= i < |s| ==> (s + [value])[i] == s[i]
  {
    var t := s + [value];
    assert |s| >= 5 ==> t[2..5] == s[2..5];
    assert |s| == 4 ==> t[2..5] == [s[2], s[3], value];
  }
}
