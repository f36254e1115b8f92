/**
  The telegram automaton that filters raw SYN symbols an adapter injects into an active exchange.
  The class follows the handlers; Next on values is its specification.
  */
module TelegramFsm {
  import opened Octets

  datatype State =
    | Idle | Arbitrating | MasterHeader | MasterData | MasterCrc | WaitMasterAck | MasterRetx
    | SlaveLength | SlaveData | SlaveCrc | WaitSlaveAck | SlaveRetx | WaitTerminator | Aborted

  datatype Decision = Forward | DropInjection | Fault

  /** A decoded symbol; escaped tells a payload 0xAA from one on the wire. */
  datatype Symbol = Symbol(value: byte, escaped: bool)

  const MAX_RETX := 1
  const MAX_LENGTH := 16

  predicate IsRaw(x: Symbol) {
    x.value == SYN && !x.escaped
  }

  datatype Snapshot = Snapshot(
    state: State, masterNN: byte, consumed: byte, dest: byte, masterRetx: byte, slaveNN: byte, slaveRetx: byte, passive: bool)

  const CLEARED := Snapshot(Idle, 0, 0, 0, 0, 0, 0, false)

  /** Behind the first symbol of a foreign initiator. */
  const TRACKING := CLEARED.(state := MasterHeader, consumed := 1, passive := true)

  /** The state callers see: None is the composite state of passive tracking. */
  function Seen(m: Snapshot): Option<State> {
    if m.passive && !m.state.Idle? && !m.state.Aborted? then None else Some(m.state)
  }

  function Bump(b: byte): byte {
    (b + 1) % 256
  }

  function Enter(m: Snapshot, s: State): Snapshot {
    m.(state := s)
  }

  function Restart(m: Snapshot, s: State): Snapshot {
    m.(state := s, consumed := 0)
  }

  function NextHeader(m: Snapshot, b: byte): (Snapshot, Decision) {
    if m.consumed == 4 && b > MAX_LENGTH then (m.(masterNN := b, state := Aborted), Fault)
    else
      var noted := if m.consumed == 1 then m.(dest := b) else if m.consumed == 4 then m.(masterNN := b) else m;
      var taken := noted.(consumed := Bump(noted.consumed));
      (if taken.consumed < 5 then taken else Restart(taken, if taken.masterNN == 0 then MasterCrc else MasterData), Forward)
  }

  function NextLength(m: Snapshot, b: byte): (Snapshot, Decision) {
    if b > MAX_LENGTH then (Enter(m, Aborted), Fault)
    else (Restart(m.(slaveNN := b), if b == 0 then SlaveCrc else SlaveData), Forward)
  }

  function Next(m: Snapshot, x: Symbol): (Snapshot, Decision) {
    match m.state
    case Idle => (m, Forward)
    case Aborted => (m, Fault)
    case WaitTerminator => if IsRaw(x) then (CLEARED, Forward) else (Enter(m, Aborted), Fault)
    case _ => if IsRaw(x) then (m, DropInjection) else NextActive(m, x.value)
  }

  /** A symbol that is not a raw SYN, in a phase that filters raw SYNs. */
  function NextActive(m: Snapshot, b: byte): (Snapshot, Decision) {
    match m.state
    case Arbitrating => (m.(state := MasterHeader, consumed := 1), Forward)
    case MasterHeader => NextHeader(m, b)
    case MasterData =>
      var taken := m.(consumed := Bump(m.consumed));
      (if taken.consumed >= taken.masterNN then Restart(taken, MasterCrc) else taken, Forward)
    case MasterCrc => (Enter(m, if m.dest == BROADCAST then WaitTerminator else WaitMasterAck), Forward)
    case WaitMasterAck =>
      if b == ACK then (Restart(m, SlaveLength), Forward)
      else if b != NACK then (Enter(m, Aborted), Fault)
      else if m.masterRetx < MAX_RETX then (m.(state := MasterRetx, masterRetx := m.masterRetx + 1), Forward)
      else (Enter(m, Aborted), Forward)
    case MasterRetx => (m.(state := MasterHeader, consumed := 1, masterNN := 0, dest := 0), Forward)
    case SlaveLength => NextLength(m, b)
    case SlaveData =>
      var taken := m.(consumed := Bump(m.consumed));
      (if taken.consumed >= taken.slaveNN then Restart(taken, SlaveCrc) else taken, Forward)
    case SlaveCrc => (Enter(m, WaitSlaveAck), Forward)
    case WaitSlaveAck =>
      if b == ACK then (Enter(m, WaitTerminator), Forward)
      else if b != NACK then (Enter(m, Aborted), Fault)
      else if m.slaveRetx < MAX_RETX then (m.(state := SlaveRetx, slaveRetx := m.slaveRetx + 1), Forward)
      else (Enter(m, Aborted), Forward)
    case SlaveRetx => NextLength(m, b)
    case _ => (m, Fault)
  }

  class Machine {
    var state: State
    var masterNN: byte
    var consumed: byte
    var dest: byte
    var masterRetx: byte
    var slaveNN: byte
    var slaveRetx: byte
    var passive: bool

    ghost function Value(): Snapshot
      reads this
    {
      Snapshot(state, masterNN, consumed, dest, masterRetx, slaveNN, slaveRetx, passive)
    }

    constructor ()
      ensures Value() == CLEARED
    {
      state, masterNN, consumed, dest, masterRetx, slaveNN, slaveRetx, passive := Idle, 0, 0, 0, 0, 0, 0, false;
    }

    method ResetToIdle()
      modifies this
      ensures Value() == CLEARED
    {
      state, masterNN, consumed, dest, masterRetx, slaveNN, slaveRetx, passive := Idle, 0, 0, 0, 0, 0, 0, false;
    }

    method EnterArbitrating()
      modifies this
      ensures Value() == old(Value()).(state := Arbitrating, passive := false)
    {
      state := Arbitrating;
      passive := false;
    }

    method EnterPassiveTracking()
      modifies this
      ensures Value() == TRACKING
    {
      ResetToIdle();
      state, consumed, passive := MasterHeader, 1, true;
    }

    method Reported() returns (s: Option<State>)
      ensures s == Seen(Value())
    {
      if passive && state != Idle && state != Aborted { s := None; } else { s := Some(state); }
    }

    method Feed(x: Symbol) returns (d: Decision)
      modifies this
      ensures (Value(), d) == Next(old(Value()), x)
    {
      d := Forward;
      if state == Idle { return; }
      if state == Aborted { d := Fault; return; }
      if state == WaitTerminator {
        if IsRaw(x) { ResetToIdle(); } else { state := Aborted; d := Fault; }
        return;
      }
      if IsRaw(x) { d := DropInjection; return; }
      d := TakeSymbol(x.value);
    }

    method TakeSymbol(b: byte) returns (d: Decision)
      requires state != Idle && state != Aborted && state != WaitTerminator
      modifies this
      ensures (Value(), d) == NextActive(old(Value()), b)
    {
      d := Forward;
      match state {
        case Arbitrating => state, consumed := MasterHeader, 1;
        case MasterHeader => d := TakeHeader(b);
        case MasterData =>
          consumed := Bump(consumed);
          if consumed >= masterNN { state, consumed := MasterCrc, 0; }
        case MasterCrc => state := if dest == BROADCAST then WaitTerminator else WaitMasterAck;
        case WaitMasterAck =>
          if b == ACK {
            state, consumed := SlaveLength, 0;
          } else if b == NACK {
            if masterRetx < MAX_RETX { state, masterRetx := MasterRetx, masterRetx + 1; } else { state := Aborted; }
          } else {
            state, d := Aborted, Fault;
          }
        case MasterRetx => state, consumed, masterNN, dest := MasterHeader, 1, 0, 0;
        case SlaveLength => d := TakeLength(b);
        case SlaveData =>
          consumed := Bump(consumed);
          if consumed >= slaveNN { state, consumed := SlaveCrc, 0; }
        case SlaveCrc => state := WaitSlaveAck;
        case WaitSlaveAck =>
          if b == ACK {
            state := WaitTerminator;
          } else if b == NACK {
            if slaveRetx < MAX_RETX { state, slaveRetx := SlaveRetx, slaveRetx + 1; } else { state := Aborted; }
          } else {
            state, d := Aborted, Fault;
          }
        case SlaveRetx => d := TakeLength(b);
      }
    }

    method TakeHeader(b: byte) returns (d: Decision)
      modifies this
      ensures (Value(), d) == NextHeader(old(Value()), b)
    {
      if consumed == 1 {
        dest := b;
      } else if consumed == 4 {
        masterNN := b;
        if b > MAX_LENGTH {
          state := Aborted;
          return Fault;
        }
      }
      consumed := Bump(consumed);
      if consumed >= 5 {
        state := if masterNN == 0 then MasterCrc else MasterData;
        consumed := 0;
      }
      return Forward;
    }

    method TakeLength(b: byte) returns (d: Decision)
      modifies this
      ensures (Value(), d) == NextLength(old(Value()), b)
    {
      if b > MAX_LENGTH {
        state := Aborted;
        return Fault;
      }
      slaveNN := b;
      state := if b == 0 then SlaveCrc else SlaveData;
      consumed := 0;
      return Forward;
    }
  }
}
