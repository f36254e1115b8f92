/**
  What the AA25 engine does, as relations between the state before and after: one raw symbol, one bit
  of a character, one sample, one pass over the transmission.
  */
module EngineEffects {
  import opened Octets
  import opened Ticks
  import opened EngineState
  import Address
  import Wire

  /** Frame, transmission and stock, without the receiver. */
  datatype State = State(
    frame: Frame, tx: Tx, pinned: Prepared, pinnedValid: bool, slot: Prepared, slotValid: bool, log: Log, edges: seq<Level>)

  function Dropped(f: Frame): Frame {
    f.(phase := Unsynced, escape := false)
  }

  function Opened(f: Frame): Frame {
    f.(phase := AtSource, escape := false, crc := 0)
  }

  // ---- The request ----

  /** A pin is made for this address, unescaped, from an initiator, with a response in stock. */
  predicate Pins(c: Config, a: State, logical: byte, escaped: bool) {
    !escaped && logical == c.address && Address.IsInitiator(a.frame.source) && a.slotValid
  }

  predicate Misaddressed(c: Config, a: State, logical: byte, escaped: bool) {
    escaped || (logical == c.address && !Address.IsInitiator(a.frame.source))
  }

  /** The right CRC for a pinned response of this very shape, whose schedule fits from the last character's start. */
  predicate Admits(reserve: nat, start: nat, a: State, logical: byte) {
    && logical == Wire.LogicalCrc(a.log.logical) && a.pinnedValid
    && a.frame.pb == a.pinned.pb && a.frame.sb == a.pinned.sb && a.frame.nn == a.pinned.nn && ScheduleFits(reserve, start)
  }

  function Admitted(t: Tx, start: nat): Tx {
    t.(state := Waiting, anchor := start, bit := 0, base := 0, retried := false, cancel := false, echo := 0)
  }

  /** The frame after a logical byte: the byte in its field and the next field open, or the frame dropped. */
  function NextFrame(c: Config, a: State, logical: byte, escaped: bool): Frame {
    var f := a.frame;
    match f.phase
    case AtSource => if escaped then Dropped(f) else f.(source := logical, phase := AtTarget)
    case AtTarget => if Misaddressed(c, a, logical, escaped) then Dropped(f) else f.(phase := AtPB)
    case AtPB => f.(pb := logical, phase := AtSB)
    case AtSB => f.(sb := logical, phase := AtNN)
    case AtNN =>
      if logical > MAX_REQUEST_NN then Dropped(f)
      else f.(nn := logical, left := logical, phase := if logical == 0 then AtCrc else AtData)
    case AtData => if f.left == 0 then f else f.(left := f.left - 1, phase := if f.left == 1 then AtCrc else AtData)
    case AtCrc => f.(phase := Trailing)
    case _ => f
  }

  /** One logical byte: its field, the pin at the target, the admission at the CRC, and nothing more. */
  predicate Delivered(c: Config, reserve: nat, start: nat, a: State, b: State, logical: byte, escaped: bool) {
    && b.frame == NextFrame(c, a, logical, escaped).(crc := b.frame.crc)
    && b.pinned == (if a.frame.phase.AtTarget? && Pins(c, a, logical, escaped) then a.slot else a.pinned)
    && b.tx == (if a.frame.phase.AtCrc? && Admits(reserve, start, a, logical) then Admitted(a.tx, start) else a.tx)
    && b.pinnedValid == (
         if a.frame.phase.AtTarget? then Pins(c, a, logical, escaped)
         else if a.frame.phase.AtCrc? then Admits(reserve, start, a, logical)
         else a.pinnedValid && !b.frame.phase.Unsynced?)
  }

  lemma TargetDelivered(c: Config, reserve: nat, start: nat, a: State, b: State, logical: byte, escaped: bool)
    requires a.frame.phase.AtTarget? && b.tx == a.tx && b.pinnedValid == Pins(c, a, logical, escaped)
    requires b.frame == if Misaddressed(c, a, logical, escaped) then Dropped(a.frame) else a.frame.(phase := AtPB)
    requires b.pinned == if b.pinnedValid then a.slot else a.pinned
    ensures Delivered(c, reserve, start, a, b, logical, escaped)
  {
  }

  lemma CrcDelivered(c: Config, reserve: nat, start: nat, a: State, b: State, logical: byte, escaped: bool)
    requires a.frame.phase.AtCrc? && b.frame == a.frame.(phase := Trailing) && b.pinned == a.pinned
    requires b.pinnedValid == Admits(reserve, start, a, logical) && b.tx == if b.pinnedValid then Admitted(a.tx, start) else a.tx
    ensures Delivered(c, reserve, start, a, b, logical, escaped)
  {
    hide Admits;
  }

  lemma NothingDelivered(c: Config, reserve: nat, start: nat, a: State, logical: byte, escaped: bool)
    requires a.frame.phase.Trailing? || (a.frame.phase.Unsynced? && !a.pinnedValid)
    ensures Delivered(c, reserve, start, a, a, logical, escaped)
  {
  }

  /** One raw symbol: SYN opens a frame, half an escape waits, a broken one drops everything, the rest is delivered. */
  predicate Fed(c: Config, reserve: nat, start: nat, a: State, b: State, symbol: byte) {
    if a.frame.phase.Unsynced? && symbol != SYN then b.frame == a.frame && b.tx == a.tx && b.pinned == a.pinned && b.pinnedValid == a.pinnedValid
    else if a.frame.escape && !a.frame.phase.Unsynced? then
      if symbol == 0 || symbol == 1 then
        Delivered(c, reserve, start, a.(frame := a.frame.(escape := false)), b, if symbol == 0 then ESC else SYN, true)
      else b.tx.state.Idle? && !b.pinnedValid && b.frame.phase == if symbol == SYN then AtSource else Unsynced
    else if symbol == SYN then b.frame == Opened(a.frame) && b.tx == a.tx && b.pinnedValid == !b.tx.state.Idle?
    else if symbol == ESC then
      b.frame == a.frame.(escape := true, crc := b.frame.crc) && b.tx == a.tx && b.pinnedValid == a.pinnedValid && b.pinned == a.pinned
    else Delivered(c, reserve, start, a, b, symbol, false)
  }

  // ---- Symbols and bits ----

  /** The end of the wait for the final symbol; it saturates. */
  function AckEnd(c: Config, since: nat): nat {
    if since + c.hz / 5 > MAX64 then MAX64 else since + c.hz / 5
  }

  /** The first NACK, in time and not cancelled, resends the response portion once. */
  predicate Retries(c: Config, reserve: nat, start: nat, t: Tx, symbol: byte, now: nat) {
    symbol == NACK && now < AckEnd(c, t.ackSince) && !t.cancel && !t.retried && ScheduleFits(reserve, start)
  }

  function Retried(t: Tx, start: nat): Tx {
    t.(state := Waiting, retried := true, anchor := start, base := BITS_PER_CHARACTER, bit := BITS_PER_CHARACTER, echo := 1)
  }

  /** The transmission after a whole symbol: one more echo, or what the awaited final symbol makes of it. */
  function AfterSymbol(c: Config, reserve: nat, start: nat, t: Tx, symbol: byte, now: nat): Tx {
    if t.state.Active? then t.(echo := t.echo + 1)
    else if !t.state.AwaitAck? then t
    else if Retries(c, reserve, start, t, symbol, now) then Retried(t, start)
    else t.(state := Idle)
  }

  /** A whole symbol: out of an exchange it feeds the frame, in one it is an echo or the final symbol. */
  predicate SymbolTaken(c: Config, reserve: nat, start: nat, now: nat, a: State, b: State, symbol: byte) {
    && b.slot == a.slot && b.slotValid == a.slotValid
    && if a.tx.state.Idle? then Fed(c, reserve, start, a, b, symbol)
    else if a.frame.escape && symbol != 0 && symbol != 1 then b.tx.state.Idle? && !b.pinnedValid
    else b.tx == AfterSymbol(c, reserve, start, a.tx, symbol, now) && b.pinnedValid == !b.tx.state.Idle?
  }

  /** Reception starts over, nothing is on the line and nothing is in stock. */
  predicate Lost(r: Rx, b: State) {
    b.tx.state.Idle? && !b.pinnedValid && !b.slotValid && b.frame.phase.Unsynced? && r.state.Resync?
  }

  /** The frame and any exchange are over. */
  predicate Ended(b: State) {
    b.tx.state.Idle? && !b.pinnedValid && b.frame.phase.Unsynced?
  }

  predicate Same(a: State, b: State) {
    b == a.(log := b.log)
  }

  /** The receiver before and after, up to the votes of the bit under way and the last level seen. */
  predicate Receives(r: Rx, s: Rx) {
    s == r.(votes := s.votes, previous := s.previous)
  }

  /** What the vote on one bit decides: a false start, a mismatched echo or a bad stop ends things, any other goes on. */
  predicate BitTaken(c: Config, reserve: nat, index: nat, now: nat, high: bool, r: Rx, s: Rx, a: State, b: State)
    requires r.startIndex <= index
    requires r.echo && a.tx.state.Active? ==> a.tx.echo < |a.pinned.wire|
  {
    var bit := (index - r.startIndex) / 10;
    var echoing := r.echo && a.tx.state.Active?;
    if bit == 0 then
      if !high then Same(a, b) && Receives(r, s) else Ended(b) && if echoing then Lost(s, b) else s.state.Hunt?
    else if bit < BITS_PER_CHARACTER - 1 then
      if echoing && BitOf(a.pinned.wire[a.tx.echo], bit - 1) != high then Lost(s, b)
      else Same(a, b) && Receives(r.(shift := r.shift + [high]), s)
    else if !high then Ended(b) && s.state.Resync?
    else |r.shift| == 8 && SymbolTaken(c, reserve, r.startTick, now, a, b, SymbolOf(r.shift)) && Receives(r.(state := StopTail), s)
  }

  /** A sample inside a character: central ones vote, and the third decides the bit. */
  predicate Sampled(c: Config, reserve: nat, index: nat, now: nat, heard: seq<Level>, r: Rx, s: Rx, a: State, b: State)
    requires r.startIndex <= index
    requires r.echo && a.tx.state.Active? ==> a.tx.echo < |a.pinned.wire|
  {
    if (index - r.startIndex) % 10 != 6 then Same(a, b) && Receives(r, s)
    else
      var bit := (index - r.startIndex) / 10;
      LastSample(bit) < |heard| && BitTaken(c, reserve, index, now, MajorityHigh(heard, bit), r, s, a, b)
  }

  /** The transmission as a start bit finds it: complete, if every symbol was driven and echoed and the end is due. */
  function AtStart(c: Config, a: State, now: nat): Tx
    requires a.tx.state.Active? ==> a.tx.base <= a.tx.bit
  {
    var t := a.tx;
    if t.state.Active? && t.bit == BITS_PER_CHARACTER * |a.pinned.wire| && t.echo == |a.pinned.wire| &&
       now >= TxDeadline(c, t.anchor, t.base, t.bit)
    then t.(state := AwaitAck, ackSince := now) else t
  }

  /** A falling edge starts a character, unless none can belong to the exchange under way. */
  predicate Started(c: Config, index: nat, now: nat, r: Rx, s: Rx, a: State, b: State)
    requires a.tx.state.Active? ==> a.tx.base <= a.tx.bit
  {
    var t := AtStart(c, a, now);
    if t.state.Waiting? then Ended(b) && !b.slotValid
    else if t.state.Active? && t.echo >= Begun(t.bit) then Lost(s, b)
    else
      && Same(a.(tx := t), b)
      && Receives(r.(state := Character, startIndex := index, startTick := now, votes := 0, shift := [], finalComplete := false,
                     echo := t.state.Active?), s)
  }

  /** One observed level, by the state of the receiver; the last level is remembered. */
  predicate Observed(c: Config, reserve: nat, level: Level, index: nat, now: nat, heard: seq<Level>, r: Rx, s: Rx, a: State, b: State)
    requires r.startIndex <= index || !(r.state.Character? || r.state.StopTail?)
    requires r.state.Character? && r.echo && a.tx.state.Active? ==> a.tx.echo < |a.pinned.wire|
    requires a.tx.state.Active? ==> a.tx.base <= a.tx.bit
  {
    s.previous == level && LevelTaken(c, reserve, level, index, now, heard, r, s, a, b)
  }

  predicate LevelTaken(c: Config, reserve: nat, level: Level, index: nat, now: nat, heard: seq<Level>, r: Rx, s: Rx, a: State, b: State)
    requires r.startIndex <= index || !(r.state.Character? || r.state.StopTail?)
    requires r.state.Character? && r.echo && a.tx.state.Active? ==> a.tx.echo < |a.pinned.wire|
    requires a.tx.state.Active? ==> a.tx.base <= a.tx.bit
  {
    match r.state
    case Resync =>
      && Same(a, b)
      && (if level.Low? then Receives(r.(idleRun := 0), s)
          else Receives(r.(idleRun := r.idleRun + 1, state := if r.idleRun + 1 >= RESYNC_SAMPLES then Hunt else Resync), s))
    case Hunt =>
      if level.Low? && r.previous.High? then Started(c, index, now, r, s, a, b) else Same(a, b) && Receives(r, s)
    case Character => Sampled(c, reserve, index, now, heard, r, s, a, b)
    case StopTail =>
      if level.Low? then Started(c, index, now, r, s, a, b)
      else Same(a, b) && Receives(if index - r.startIndex >= 99 then r.(finalComplete := true, state := Hunt) else r, s)
  }

  lemma StartedAside(c: Config, index: nat, now: nat, r: Rx, s: Rx, a: State, b: State, level: Level)
    requires a.tx.state.Active? ==> a.tx.base <= a.tx.bit
    requires Started(c, index, now, r, s, a, b)
    ensures Started(c, index, now, r, s.(previous := level), a, b)
  {
    hide AtStart, Same, Ended;
  }

  lemma BitAside(c: Config, reserve: nat, index: nat, now: nat, high: bool, r: Rx, s: Rx, a: State, b: State, level: Level)
    requires r.startIndex <= index
    requires r.echo && a.tx.state.Active? ==> a.tx.echo < |a.pinned.wire|
    requires BitTaken(c, reserve, index, now, high, r, s, a, b)
    ensures BitTaken(c, reserve, index, now, high, r, s.(previous := level), a, b)
  {
    hide SymbolTaken, Same, Ended, BitOf;
  }

  /** No relation of a sample looks at the level remembered. */
  lemma PreviousAside(c: Config, reserve: nat, level: Level, index: nat, now: nat, heard: seq<Level>, r: Rx, s: Rx, a: State, b: State)
    requires r.startIndex <= index || !(r.state.Character? || r.state.StopTail?)
    requires r.state.Character? && r.echo && a.tx.state.Active? ==> a.tx.echo < |a.pinned.wire|
    requires a.tx.state.Active? ==> a.tx.base <= a.tx.bit
    requires LevelTaken(c, reserve, level, index, now, heard, r, s, a, b)
    ensures Observed(c, reserve, level, index, now, heard, r, s.(previous := level), a, b)
  {
    hide BitTaken, Started, MajorityHigh, Same;
    if r.state.Character? {
      if (index - r.startIndex) % 10 == 6 {
        BitAside(c, reserve, index, now, MajorityHigh(heard, (index - r.startIndex) / 10), r, s, a, b, level);
      }
    } else if (r.state.Hunt? && level.Low? && r.previous.High?) || (r.state.StopTail? && level.Low?) {
      StartedAside(c, index, now, r, s, a, b, level);
    }
  }

  /** After a loss one sample changes nothing but the count of idle ones. */
  lemma LostStays(c: Config, reserve: nat, level: Level, index: nat, now: nat, heard: seq<Level>, r: Rx, s: Rx, a: State, b: State)
    requires Lost(r, a) && Observed(c, reserve, level, index, now, heard, r, s, a, b)
    ensures Ended(b) && !b.slotValid && !s.state.Character?
  {
  }

  /** A sample never starts a response by itself: outside an exchange it can at most admit one. */
  lemma IdleWaits(c: Config, reserve: nat, level: Level, index: nat, now: nat, heard: seq<Level>, r: Rx, s: Rx, a: State, b: State)
    requires r.startIndex <= index || !(r.state.Character? || r.state.StopTail?)
    requires r.state.Character? && r.echo && a.tx.state.Active? ==> a.tx.echo < |a.pinned.wire|
    requires a.tx.state.Idle? && (r.state.Character? ==> !r.finalComplete)
    requires Observed(c, reserve, level, index, now, heard, r, s, a, b)
    ensures b.tx.state.Idle? || (b.tx.state.Waiting? && !s.finalComplete)
  {
    hide MajorityHigh;
  }

  // ---- Transmission ----

  /** Only the transmission moved, to next. */
  predicate Moved(next: Tx, r: Rx, s: Rx, a: State, b: State) {
    s == r && b == a.(tx := next, edges := a.edges + if next.level == a.tx.level then [] else [next.level])
  }

  /** The next bit of transmission t goes on the line when it is due; an edge that comes too late ends the response. */
  predicate BitDriven(c: Config, t: Tx, now: nat, r: Rx, s: Rx, a: State, b: State)
    requires t.base <= t.bit < BITS_PER_CHARACTER * |a.pinned.wire|
  {
    var deadline, level := TxDeadline(c, t.anchor, t.base, t.bit), BitLevel(a.pinned.wire, t.bit);
    if now < deadline then Moved(t, r, s, a, b)
    else if level != t.level && now > deadline + c.lateTolerance then Lost(s, b)
    else Moved(t.(bit := t.bit + 1, level := level), r, s, a, b)
  }

  /**
    One pass over an active response: a missing echo ends it, the next bit is driven, and when all
    symbols were driven and echoed it awaits the final acknowledgement.
    */
  predicate ActiveStep(c: Config, t: Tx, now: nat, r: Rx, s: Rx, a: State, b: State)
    requires t.base <= t.bit && t.base <= BITS_PER_CHARACTER * t.echo
  {
    var length := |a.pinned.wire|;
    if t.echo < length && now >= TxDeadline(c, t.anchor, t.base, (t.echo + 1) * BITS_PER_CHARACTER) + c.echoAllowance then Lost(s, b)
    else if t.bit < BITS_PER_CHARACTER * length then BitDriven(c, t, now, r, s, a, b)
    else if t.echo == length && now >= TxDeadline(c, t.anchor, t.base, t.bit) then Moved(t.(state := AwaitAck, ackSince := now), r, s, a, b)
    else Moved(t, r, s, a, b)
  }

  /**
    One pass over the transmission: an admitted response starts once the request's last stop bit is
    over and its first boundary is due; the wait for the final symbol is bounded.
    */
  predicate Transmitted(c: Config, now: nat, r: Rx, s: Rx, a: State, b: State)
    requires a.tx.state.Waiting? || a.tx.state.Active? ==> a.tx.base <= a.tx.bit && a.tx.base <= BITS_PER_CHARACTER * a.tx.echo
  {
    match a.tx.state
    case Idle => s == r && b == a
    case AwaitAck =>
      s == r && if now >= AckEnd(c, a.tx.ackSince) then b == a.(tx := a.tx.(state := Idle), pinnedValid := false) else b == a
    case Waiting =>
      if !r.finalComplete || now < TxDeadline(c, a.tx.anchor, a.tx.base, a.tx.base) then s == r && b == a
      else ActiveStep(c, a.tx.(state := Active), now, r, s, a, b)
    case Active => ActiveStep(c, a.tx, now, r, s, a, b)
  }

  /** Starting the response and its first pass are one. */
  lemma StartAside(c: Config, now: nat, r: Rx, s: Rx, a: State, b: State, t: Tx)
    requires t.base <= t.bit && t.base <= BITS_PER_CHARACTER * t.echo && t.level == a.tx.level
    requires ActiveStep(c, t, now, r, s, a.(tx := t), b)
    ensures ActiveStep(c, t, now, r, s, a, b)
  {
    hide TxDeadline, BitLevel, Lost;
  }

  /** The votes counted before a decision do not matter to it. */
  lemma VotesAside(c: Config, reserve: nat, index: nat, now: nat, high: bool, r: Rx, s: Rx, a: State, b: State, votes: nat)
    requires r.startIndex <= index
    requires r.echo && a.tx.state.Active? ==> a.tx.echo < |a.pinned.wire|
    requires BitTaken(c, reserve, index, now, high, r.(votes := votes), s, a, b)
    ensures BitTaken(c, reserve, index, now, high, r, s, a, b)
  {
    hide SymbolTaken, Lost, Ended, BitOf;
  }

  /** The boundary before this bit is exact, and so are the times compared with around it: nothing wraps. */
  predicate BoundaryExact(c: Config, t: Tx, bit: nat)
    requires t.base <= bit
  {
    && TxDeadline(c, t.anchor, t.base, bit) == t.anchor + c.turnaround + Ceil((BITS_PER_CHARACTER + bit - t.base) * c.hz, BAUD)
    && TxDeadline(c, t.anchor, t.base, bit) + c.echoAllowance + c.lateTolerance <= MAX64
  }
}
