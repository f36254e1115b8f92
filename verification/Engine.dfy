/**
  The AA25 engine itself. Ports are values: each step is given the tick and the level it would read,
  the event sink is an arbitrary function of how often it was asked, and edges are recorded in the
  order in which they are written.
  */
module Engine {
  import opened Octets
  import opened Ticks
  import opened EngineState
  import opened EngineEffects
  import Address
  import Crc
  import Wire

  /** What a configuration must satisfy at the tick of construction. */
  predicate Acceptable(c: Config, now: nat) {
    && c.hz >= SAMPLE_RATE
    && c.address != ESC && c.address != SYN && c.address != BROADCAST && !Address.IsInitiator(c.address)
    && c.turnaround <= c.hz
    && c.lateTolerance < RationalAt(1, c.hz, BAUD).0 && c.echoAllowance < RationalAt(BITS_PER_CHARACTER, c.hz, BAUD).0
    && ScheduleReserve(c).1 && ScheduleFits(ScheduleReserve(c).0, now)
  }

  class Engine {
    const config: Config
    const reserve: nat
    const sampler: Sampler
    const sink: nat -> bool

    var lastNow: nat
    var regressing: bool
    var rx: Rx
    var frame: Frame
    var slot: Prepared
    var slotValid: bool
    var pinned: Prepared
    var pinnedValid: bool
    var lastGeneration: nat
    var tx: Tx
    var loss: Loss
    var controls: seq<Control>
    var edges: seq<Level>

    /** The responses ever offered, and how often the current admission went on the wire. */
    ghost var offers: set<Prepared>
    ghost var sent: nat

    /** What was read of the frame under way. */
    ghost var log: Log

    /** The levels observed since the start of the character under way. */
    ghost var heard: seq<Level>

    ghost predicate TxSound()
      reads this`tx, this`pinned, this`sent, this`edges
    {
      LineSound(tx, pinned, reserve) && SentSound(tx, sent) && EdgesSound(edges, tx.level)
    }

    ghost predicate Stocked()
      reads this`slot, this`slotValid, this`pinned, this`pinnedValid, this`controls, this`offers, this`tx, this`edges
    {
      StockSound(slot, slotValid, pinned, pinnedValid, controls, offers) &&
      PassiveSound(offers, slotValid, pinnedValid, tx, controls, edges)
    }

    /** Everything but the receiver. */
    ghost function Now(): State
      reads this`frame, this`tx, this`pinned, this`pinnedValid, this`slot, this`slotValid, this`log, this`edges
    {
      State(frame, tx, pinned, pinnedValid, slot, slotValid, log, edges)
    }

    /** Pins and exchanges belong to a request to this address. */
    ghost predicate Pinned()
      reads this`frame, this`tx, this`pinned, this`pinnedValid, this`log, this`offers
    {
      PinSound(frame, tx, pinned, pinnedValid, log, offers, config.address)
    }

    ghost predicate Framed()
      reads this`frame, this`tx, this`pinned, this`pinnedValid, this`log, this`offers
    {
      SumSound(frame, log) && Pinned()
    }

    /** Everything that holds between two events, for the sample about to be observed. */
    ghost predicate Sound(at: nat)
      reads this`slot, this`slotValid, this`pinned, this`pinnedValid, this`controls, this`offers, this`tx, this`edges, this`sent, this`frame, this`log, this`rx, this`heard
    {
      TxSound() && Stocked() && Framed() && ReceiveSound(rx, tx, pinned, at) && HeardSound(rx, heard, at)
    }

    ghost predicate Valid()
      reads this, sampler
    {
      && SAMPLE_RATE <= config.hz <= MAX64 && reserve == Reserve(config) && sampler.hz == config.hz
      && sampler.Paced(lastNow) && Sound(sampler.next) && AllMade(offers)
    }

    constructor (c: Config, now: nat, answers: nat -> bool)
      requires c.hz <= MAX64 && now <= MAX64 && Acceptable(c, now)
      ensures Valid() && fresh(sampler) && offers == {} && edges == [] && config == c
    {
      ReserveExact(c);
      config, reserve, sink := c, ScheduleReserve(c).0, answers;
      sampler := new Sampler(now, c.hz);
      lastNow, regressing := now, false;
      rx := Rx(Resync, High, 0, 0, 0, false, 0, [], false);
      frame := Frame(Unsynced, false, 0, 0, 0, 0, 0, 0);
      slot, slotValid, pinned, pinnedValid, lastGeneration := Prepared(0, 0, 0, 0, []), false, Prepared(0, 0, 0, 0, []), false, 0;
      tx := Tx(Idle, 0, 0, 0, false, false, 0, High, 0);
      loss, controls, edges := Loss(false, false, 0, 0), [], [];
      offers, sent, heard, log := {}, 0, [], NO_LOG;
    }

    // ---- Events and edges ----

    /** The sink takes every event. */
    ghost predicate Heeded() {
      forall n: nat :: sink(n)
    }

    /** As long as the sink takes every event, no loss opens. */
    twostate predicate Calm()
      reads this`loss
    {
      Heeded() && !old(loss).pending ==> !loss.pending
    }

    method Publish()
      modifies this`loss
      ensures Calm()
    {
      var accepted := sink(loss.asked);
      loss := loss.(asked := loss.asked + 1);
      if !accepted { loss := loss.(dropped := loss.dropped + 1, pending := true); }
    }

    method WriteEdge(level: Level)
      requires level != tx.level && EdgesSound(edges, tx.level)
      modifies this`tx, this`edges, this`loss
      ensures tx == old(tx).(level := level) && EdgesSound(edges, tx.level) && edges == old(edges) + [level]
      ensures Calm()
    {
      edges := edges + [level];
      tx := tx.(level := level);
      Publish();
    }

    /** Ends a response; a line driven low gets exactly one release. */
    method AbortTx()
      requires TxSound()
      modifies this`tx, this`pinnedValid, this`edges, this`loss
      ensures TxSound() && tx.state.Idle? && tx.level.High?
      ensures old(tx).state.Idle? ==> tx == old(tx) && edges == old(edges) && pinnedValid == old(pinnedValid)
      ensures !old(tx).state.Idle? ==> !pinnedValid && tx == old(tx).(state := Idle, level := High)
      ensures edges == if old(tx).level.Low? then old(edges) + [High] else old(edges)
      ensures Calm()
    {
      if tx.state.Idle? { return; }
      tx := tx.(state := Idle);
      pinnedValid := false;
      if tx.level.Low? { WriteEdge(High); }
    }

    /** A fresh SYN is needed before any byte can open a frame again. */
    method DropFrame()
      modifies this`frame, this`pinnedValid
      ensures frame == old(frame).(phase := Unsynced, escape := false) && pinnedValid == !tx.state.Idle?
    {
      frame := frame.(phase := Unsynced, escape := false);
      pinnedValid := !tx.state.Idle?;
    }

    method StartFrame()
      modifies this`frame, this`pinnedValid, this`log
      ensures frame == old(frame).(phase := AtSource, escape := false, crc := 0) && pinnedValid == !tx.state.Idle?
      ensures SumSound(frame, log) && log == NO_LOG
    {
      frame := frame.(phase := AtSource, escape := false, crc := 0);
      pinnedValid := !tx.state.Idle?;
      log := NO_LOG;
    }

    method InvalidateReception()
      requires TxSound()
      modifies this`tx, this`pinnedValid, this`edges, this`loss, this`frame, this`rx
      ensures TxSound() && tx.state.Idle? && !pinnedValid && frame.phase.Unsynced? && rx.state.Resync?
      ensures edges == if old(tx).level.Low? then old(edges) + [High] else old(edges)
      ensures Calm()
    {
      AbortTx();
      DropFrame();
      rx := rx.(state := Resync, idleRun := 0, finalComplete := false);
    }

    method WithdrawAdmission()
      modifies this`slotValid, this`pinnedValid
      ensures !slotValid && !pinnedValid
    {
      slotValid, pinnedValid := false, false;
    }

    /** A collision, a missing echo or a missed deadline: the response stops and admission is withdrawn. */
    method FailResponse(ghost at: nat)
      requires TxSound() && Stocked()
      modifies this`tx, this`pinnedValid, this`edges, this`loss, this`frame, this`rx, this`slotValid
      ensures Sound(at) && Lost(rx, Now()) && edges == if old(tx).level.Low? then old(edges) + [High] else old(edges)
      ensures Calm()
    {
      Publish();
      LoseAll(at);
    }

    method LoseAll(ghost at: nat)
      requires TxSound() && Stocked()
      modifies this`tx, this`pinnedValid, this`edges, this`loss, this`frame, this`rx, this`slotValid
      ensures Sound(at) && Lost(rx, Now()) && edges == if old(tx).level.Low? then old(edges) + [High] else old(edges)
      ensures Calm()
    {
      hide EdgesSound, SentSound;
      InvalidateReception();
      WithdrawAdmission();
    }

    // ---- Transmission ----

    /** Every symbol was driven and echoed; the pin stays for one retransmission. */
    method CompleteTx(now: nat)
      requires TxSound() && tx.state.Active? && tx.bit == BITS_PER_CHARACTER * |pinned.wire| && tx.echo == |pinned.wire|
      modifies this`tx, this`loss
      ensures TxSound() && tx == old(tx).(state := AwaitAck, ackSince := now) && tx.level.High?
      ensures Calm()
    {
      LastBitIsHigh(pinned.wire, tx.base);
      Publish();
      tx := tx.(state := AwaitAck, ackSince := now);
    }

    /**
      The exchange ends with this symbol, except that the first NACK, in time and not cancelled,
      resends the response portion once, on a schedule from its own start.
      */
    method HandleFinalAck(symbol: byte, now: nat)
      requires TxSound() && Stocked() && Framed() && tx.state.AwaitAck?
      modifies this`tx, this`pinnedValid, this`loss
      ensures TxSound() && Stocked() && Framed()
      ensures tx == AfterSymbol(config, reserve, rx.startTick, old(tx), symbol, now) && pinnedValid == !tx.state.Idle?
      ensures Calm()
    {
      var expired := now >= AckEnd(config, tx.ackSince);
      tx := tx.(state := Idle);
      pinnedValid := false;
      if symbol != NACK || expired || tx.cancel { return; }
      if tx.retried { Publish(); return; }
      if !ScheduleFits(reserve, rx.startTick) { Publish(); return; }
      pinnedValid := true;
      tx := tx.(retried := true, state := Waiting, anchor := rx.startTick, base := BITS_PER_CHARACTER, bit := BITS_PER_CHARACTER, echo := 1);
    }

    /**
      Schedules a pinned response exactly when its shape matches the request and its schedule fits,
      from the start of the request's last character.
      */
    method AdmitResponse(now: nat)
      requires TxSound() && Stocked() && tx.state.Idle? && frame.phase.Trailing?
      requires pinnedValid ==> pinned in offers && Own(log.logical, config.address) && |log.logical| == 5 + frame.nn
      requires pinnedValid ==> log.logical[2..5] == [frame.pb, frame.sb, frame.nn] && log.verdict == Some(Wire.LogicalCrc(log.logical))
      modifies this`tx, this`pinnedValid, this`loss, this`sent
      ensures TxSound() && Stocked() && Pinned()
      ensures pinnedValid == (old(pinnedValid) && frame.pb == pinned.pb && frame.sb == pinned.sb && frame.nn == pinned.nn
                              && ScheduleFits(reserve, rx.startTick))
      ensures tx == if pinnedValid then Admitted(old(tx), rx.startTick) else old(tx)
      ensures sent == if pinnedValid then 0 else old(sent)
      ensures Calm()
    {
      if !pinnedValid { return; }
      if frame.pb != pinned.pb || frame.sb != pinned.sb || frame.nn != pinned.nn {
        pinnedValid := false;
        return;
      }
      if !ScheduleFits(reserve, rx.startTick) {
        pinnedValid := false;
        Publish();
        return;
      }
      tx := tx.(state := Waiting, anchor := rx.startTick, bit := 0, base := 0, retried := false, cancel := false, echo := 0);
      sent := 0;
      Publish();
    }

    // ---- Frames ----

    method FaultFrame()
      requires TxSound() && Stocked() && tx.state.Idle?
      modifies this`frame, this`pinnedValid, this`loss
      ensures Stocked() && frame == old(frame).(phase := Unsynced, escape := false) && !pinnedValid
      ensures Calm()
    {
      Publish();
      DropFrame();
    }

    /** A logical byte was read, its raw symbols summed and no escape open. */
    ghost predicate Pending(logical: byte)
      reads this
    {
      Body(frame.phase) ==>
        && !frame.escape && frame.crc == Crc.Run(0, log.raw) && Fields(frame, log.logical)
        && log.raw == Wire.Escape(if frame.phase.AtCrc? then log.logical else log.logical + [logical])
    }

    /**
      Destination time reserves the prepared response and nothing else: a pin is made exactly for this
      engine's address, unescaped, from an initiator, with a response in stock.
      */
    method TakeTarget(logical: byte, escaped: bool)
      requires TxSound() && Stocked() && Pinned() && tx.state.Idle? && frame.phase.AtTarget? && Pending(logical)
      modifies this`frame, this`pinned, this`pinnedValid, this`loss, this`log
      ensures TxSound() && Stocked() && Framed() && !old(pinnedValid)
      ensures pinnedValid <==> !escaped && logical == config.address && Address.IsInitiator(old(frame).source) && slotValid
      ensures pinned == if pinnedValid then slot else old(pinned)
      ensures frame == if Misaddressed(config, old(Now()), logical, escaped) then Dropped(old(frame)) else old(frame).(phase := AtPB)
      ensures Calm()
    {
      hide Address.IsInitiator, EdgesSound, ExchangeSound, SentSound, Wire.Escape, Crc.Run;
      if escaped || (logical == config.address && !Address.IsInitiator(frame.source)) {
        FaultFrame();
        return;
      }
      FieldRead(frame, frame.(phase := AtPB), log.logical, logical);
      log := log.(logical := log.logical + [logical]);
      frame := frame.(phase := AtPB);
      if logical == config.address && slotValid {
        pinned, pinnedValid := slot, true;
        Publish();
      }
    }

    /** The right CRC admits the pinned response; the wrong one gives the pin up. */
    method TakeCrc(logical: byte, now: nat)
      requires TxSound() && Stocked() && Pinned() && tx.state.Idle? && frame.phase.AtCrc? && Pending(logical)
      modifies this`frame, this`tx, this`pinnedValid, this`loss, this`sent, this`log
      ensures TxSound() && Stocked() && Framed() && frame == old(frame).(phase := Trailing)
      ensures pinnedValid == Admits(reserve, rx.startTick, old(Now()), logical)
      ensures tx == if pinnedValid then Admitted(old(tx), rx.startTick) else old(tx)
      ensures Calm()
    {
      hide Address.IsInitiator, EdgesSound, ExchangeSound, Wire.Escape, Crc.Run;
      log := log.(verdict := Some(logical));
      assert Wire.LogicalCrc(log.logical) == frame.crc;
      frame := frame.(phase := Trailing);
      Publish();
      if logical != frame.crc {
        pinnedValid := false;
        return;
      }
      AdmitResponse(now);
    }

    method DeliverLogical(logical: byte, escaped: bool, now: nat)
      requires TxSound() && Stocked() && Pinned() && Pending(logical) && !frame.escape
      modifies this`frame, this`tx, this`pinned, this`pinnedValid, this`loss, this`sent, this`log
      ensures TxSound() && Stocked() && Framed() && Delivered(config, reserve, rx.startTick, old(Now()), Now(), logical, escaped)
      ensures !old(frame).phase.AtCrc? ==> tx == old(tx)
      ensures !old(frame).phase.AtTarget? ==> pinned == old(pinned)
      ensures Calm()
    {
      hide EdgesSound, ExchangeSound, StockSound, Wire.Escape, Crc.Run, Address.IsInitiator, Answered, SentSound, TxSound, Delivered, Admits;
      Publish();
      match frame.phase {
        case AtSource => TakeSource(logical, escaped);
        case AtTarget =>
          TakeTarget(logical, escaped);
          TargetDelivered(config, reserve, rx.startTick, old(Now()), Now(), logical, escaped);
        case AtCrc =>
          TakeCrc(logical, now);
          CrcDelivered(config, reserve, rx.startTick, old(Now()), Now(), logical, escaped);
        case Trailing => NothingDelivered(config, reserve, rx.startTick, Now(), logical, escaped);
        case Unsynced => NothingDelivered(config, reserve, rx.startTick, Now(), logical, escaped);
        case _ => TakeField(logical, escaped);
      }
    }

    method TakeSource(logical: byte, escaped: bool)
      requires TxSound() && Stocked() && Pinned() && Pending(logical) && frame.phase.AtSource? && tx.state.Idle?
      modifies this`frame, this`pinnedValid, this`loss, this`log
      ensures Stocked() && Framed() && Delivered(config, reserve, rx.startTick, old(Now()), Now(), logical, escaped)
      ensures Calm()
    {
      hide EdgesSound, ExchangeSound, Wire.Escape, Crc.Run, Address.IsInitiator, Admits, Pins, Misaddressed;
      if escaped { FaultFrame(); } else { NextField(frame.(source := logical, phase := AtTarget), logical); }
    }

    method TakeField(logical: byte, escaped: bool)
      requires TxSound() && Stocked() && Pinned() && Pending(logical) && tx.state.Idle?
      requires AfterTarget(frame.phase) && !frame.phase.AtCrc?
      modifies this`frame, this`pinnedValid, this`loss, this`log
      ensures Stocked() && Framed() && Delivered(config, reserve, rx.startTick, old(Now()), Now(), logical, escaped)
      ensures Calm()
    {
      hide TxSound, EdgesSound, ExchangeSound, StockSound, SentSound, Wire.Escape, Crc.Run, Address.IsInitiator, Admits, Pins, Misaddressed, Fields;
      FieldFacts(frame, log.logical);
      match frame.phase {
        case AtPB =>
          FieldRead(frame, frame.(pb := logical, phase := AtSB), log.logical, logical);
          NextField(frame.(pb := logical, phase := AtSB), logical);
        case AtSB =>
          FieldRead(frame, frame.(sb := logical, phase := AtNN), log.logical, logical);
          NextField(frame.(sb := logical, phase := AtNN), logical);
        case AtNN =>
          if logical > MAX_REQUEST_NN {
            FaultFrame();
          } else {
            FieldRead(frame, frame.(nn := logical, left := logical, phase := if logical == 0 then AtCrc else AtData), log.logical, logical);
            NextField(frame.(nn := logical, left := logical, phase := if logical == 0 then AtCrc else AtData), logical);
          }
        case AtData =>
          var left := (frame.left + 255) % 256;
          FieldRead(frame, frame.(left := left, phase := if left == 0 then AtCrc else AtData), log.logical, logical);
          NextField(frame.(left := left, phase := if left == 0 then AtCrc else AtData), logical);
      }
    }

    /** Stores a byte of the request; which field comes next is the caller's step. */
    method NextField(next: Frame, logical: byte)
      requires Pinned() && Pending(logical) && Body(frame.phase) && Body(next.phase)
      requires next == frame.(source := next.source, pb := next.pb, sb := next.sb, nn := next.nn, left := next.left, phase := next.phase)
      requires AfterTarget(frame.phase) ==> AfterTarget(next.phase)
      requires AfterTarget(frame.phase) ==> |log.logical| >= 2
      requires !frame.phase.AtCrc? && Fields(next, log.logical + [logical])
      modifies this`frame, this`log
      ensures Framed() && frame == next
    {
      hide Wire.Escape, Crc.Run, Address.IsInitiator;
      log := log.(logical := log.logical + [logical]);
      frame := next;
    }

    /** The CRC runs over raw symbols, an escape prefix included. */
    method AdvanceCrc(symbol: byte)
      modifies this`frame, this`log
      ensures frame == old(frame).(crc := if old(frame).phase.AtCrc? then old(frame).crc else Crc.Step(old(frame).crc, symbol))
      ensures log == if frame.phase.AtCrc? then old(log) else old(log).(raw := old(log).raw + [symbol])
    {
      if frame.phase.AtCrc? { return; }
      frame := frame.(crc := Crc.Step(frame.crc, symbol));
      log := log.(raw := log.raw + [symbol]);
    }

    method FeedFrame(symbol: byte, now: nat)
      requires TxSound() && Stocked() && Framed() && (!tx.state.Idle? ==> symbol != SYN)
      modifies this`frame, this`tx, this`pinned, this`pinnedValid, this`edges, this`loss, this`sent, this`log
      ensures TxSound() && Stocked() && Framed() && Fed(config, reserve, rx.startTick, old(Now()), Now(), symbol)
      ensures !tx.state.Idle? ==> tx.state.Waiting? || (tx == old(tx) && pinned == old(pinned))
      ensures Calm()
    {
      hide EdgesSound, ExchangeSound, StockSound, Delivered, Own, Answered, SentSound;
      if frame.phase.Unsynced? {
        if symbol == SYN { OpenFrame(); }
      } else if frame.escape {
        FeedPair(symbol, now);
      } else if symbol == SYN {
        if !frame.phase.AtSource? && !frame.phase.Trailing? { Publish(); }
        OpenFrame();
      } else {
        FeedPlain(symbol, now);
      }
    }

    method OpenFrame()
      requires TxSound() && Stocked() && Framed() && tx.state.Idle?
      modifies this`frame, this`pinnedValid, this`log
      ensures TxSound() && Stocked() && Framed() && !pinnedValid && log == NO_LOG
      ensures frame == old(frame).(phase := AtSource, escape := false, crc := 0)
    {
      hide StockSound, EdgesSound, SentSound;
      UnpinnedStock();
      StartFrame();
    }

    method FeedPlain(symbol: byte, now: nat)
      requires TxSound() && Stocked() && Framed() && symbol != SYN && !frame.escape && !frame.phase.Unsynced?
      modifies this`frame, this`tx, this`pinned, this`pinnedValid, this`edges, this`loss, this`sent, this`log
      ensures TxSound() && Stocked() && Framed() && Fed(config, reserve, rx.startTick, old(Now()), Now(), symbol)
      ensures !tx.state.Idle? ==> tx.state.Waiting? || (tx == old(tx) && pinned == old(pinned))
      ensures Calm()
    {
      hide EdgesSound, ExchangeSound, StockSound, Wire.Escape, Crc.Run, Crc.Step, Wire.LogicalCrc, Address.IsInitiator, ScheduleFits, SentSound;
      Crc.RunSnoc(0, log.raw, symbol);
      if Body(frame.phase) && !frame.phase.AtCrc? && symbol != ESC { Wire.PlainCompletes(log.logical, log.raw, symbol); }
      AdvanceCrc(symbol);
      if symbol == ESC { frame := frame.(escape := true); } else { DeliverLogical(symbol, false, now); }
    }

    method FeedPair(symbol: byte, now: nat)
      requires TxSound() && Stocked() && Framed() && (!tx.state.Idle? ==> symbol != SYN) && frame.escape && !frame.phase.Unsynced?
      modifies this`frame, this`tx, this`pinned, this`pinnedValid, this`edges, this`loss, this`sent, this`log
      ensures TxSound() && Stocked() && Framed() && Fed(config, reserve, rx.startTick, old(Now()), Now(), symbol)
      ensures !tx.state.Idle? ==> tx.state.Waiting? || (tx == old(tx) && pinned == old(pinned))
      ensures Calm()
    {
      hide EdgesSound, ExchangeSound, StockSound, Wire.Escape, Crc.Run, Crc.Step, Wire.LogicalCrc, Address.IsInitiator, ScheduleFits, SentSound;
      if symbol != 0 && symbol != 1 {
        BreakFrame(symbol);
        return;
      }
      Crc.RunSnoc(0, log.raw, symbol);
      if Body(frame.phase) && !frame.phase.AtCrc? { Wire.PairCompletes(log.logical, log.raw, symbol); }
      frame := frame.(escape := false);
      AdvanceCrc(symbol);
      DeliverLogical(if symbol == 0 then ESC else SYN, true, now);
    }

    lemma UnpinnedStock()
      requires Stocked()
      ensures StockSound(slot, slotValid, pinned, false, controls, offers) && StockSound(slot, false, pinned, false, controls, offers)
      ensures PassiveSound(offers, slotValid, false, tx, controls, edges) && PassiveSound(offers, false, false, tx, controls, edges)
    {
    }

    /** A broken escape ends the frame and whatever was being answered. */
    method BreakFrame(symbol: byte)
      requires TxSound() && Stocked() && Framed()
      modifies this`frame, this`tx, this`pinnedValid, this`edges, this`loss, this`log
      ensures TxSound() && Stocked() && Framed() && tx.state.Idle? && !pinnedValid
      ensures frame.phase == if symbol == SYN then AtSource else Unsynced
      ensures Calm()
    {
      hide EdgesSound, ExchangeSound, StockSound, SentSound, Answered;
      UnpinnedStock();
      frame := frame.(escape := false);
      Publish();
      AbortTx();
      DropFrame();
      if symbol == SYN { StartFrame(); }
    }

    // ---- Characters ----

    /** A framing fault loses the frame and any exchange; only a response on the line loses its stock too. */
    method FailCharacter(ghost at: nat)
      requires TxSound() && Stocked() && !rx.state.Character? && !rx.state.StopTail?
      modifies this`tx, this`pinnedValid, this`edges, this`loss, this`frame, this`rx, this`slotValid
      ensures Sound(at) && tx.state.Idle? && !pinnedValid && frame.phase.Unsynced?
      ensures if old(rx).echo && old(tx).state.Active? then Lost(rx, Now()) else rx == old(rx) && slotValid == old(slotValid)
      ensures Calm()
    {
      hide EdgesSound, ExchangeSound;
      Publish();
      if rx.echo && tx.state.Active? {
        FailResponse(at);
        return;
      }
      AbortTx();
      DropFrame();
    }

    /** A start seen once every symbol has echoed is the awaited final symbol, not an extra echo. */
    method CompleteIfEchoed(now: nat)
      requires TxSound() && Stocked() && Framed()
      modifies this`tx, this`loss
      ensures TxSound() && Stocked() && Framed() && (old(tx).state.Active? ==> old(tx).base <= old(tx).bit)
      ensures tx == AtStart(config, old(Now()), now)
      ensures Calm()
    {
      hide EdgesSound, TxDeadline, StockSound;
      if tx.state.Active? && tx.bit == BITS_PER_CHARACTER * |pinned.wire| && tx.echo == |pinned.wire| &&
         now >= TxDeadline(config, tx.anchor, tx.base, tx.bit) {
        CompleteTx(now);
      }
    }

    /** A character while waiting, or one that echoes nothing, ends the exchange; any other goes on. */
    method JudgeStart(ghost at: nat)
      requires TxSound() && Stocked() && Framed() && rx.state.Character? && rx.echo == tx.state.Active?
      requires at == rx.startIndex + 1 && rx.shift == [] && rx.votes == 0 && heard == [Low] && !rx.finalComplete
      modifies this`tx, this`pinnedValid, this`edges, this`loss, this`frame, this`rx, this`slotValid
      ensures Sound(at)
      ensures if old(tx).state.Waiting? then Ended(Now()) && !slotValid && rx == old(rx)
              else if old(tx).state.Active? && old(tx).echo >= Begun(old(tx).bit) then Lost(rx, Now())
              else Same(old(Now()), Now()) && rx == old(rx)
      ensures Calm()
    {
      hide EdgesSound, SumSound, SentSound, StockSound, ExchangeSound, PinSound, PassiveSound;
      if tx.state.Waiting? {
        RefuseStart();
      } else if tx.state.Active? {
        EchoWithin();
        if tx.echo >= Begun(tx.bit) { FailResponse(at); }
      }
    }

    lemma EchoWithin()
      requires TxSound() && tx.state.Active?
      ensures Begun(tx.bit) <= |pinned.wire|
    {
      BegunWithin(tx.bit, |pinned.wire|);
    }

    method RefuseStart()
      requires TxSound() && Stocked() && Framed() && tx.state.Waiting?
      modifies this`tx, this`pinnedValid, this`edges, this`loss, this`frame, this`slotValid
      ensures TxSound() && Stocked() && Framed() && tx.state.Idle? && !pinnedValid && !slotValid && frame.phase.Unsynced?
      ensures Calm()
    {
      hide EdgesSound, SentSound, StockSound, ExchangeSound;
      UnpinnedStock();
      Publish();
      AbortTx();
      DropFrame();
      WithdrawAdmission();
    }

    /** The first low level anchors the phase of a character. */
    method BeginCharacter(index: nat, now: nat)
      requires TxSound() && Stocked() && Framed()
      modifies this`tx, this`pinnedValid, this`edges, this`loss, this`frame, this`rx, this`slotValid, this`heard
      ensures Sound(index + 1) && (old(tx).state.Active? ==> old(tx).base <= old(tx).bit)
      ensures Started(config, index, now, old(rx), rx, old(Now()), Now())
      ensures Calm()
    {
      hide LineSound, SentSound, EdgesSound, StockSound, PassiveSound, SumSound, PinSound;
      heard := [Low];
      rx := rx.(state := Character, startIndex := index, startTick := now, votes := 0, shift := [], finalComplete := false);
      CompleteIfEchoed(now);
      rx := rx.(echo := tx.state.Active?);
      JudgeStart(index + 1);
    }

    /** The vote of three central samples decides a bit. */
    method DecideBit(index: nat, now: nat, high: bool)
      requires TxSound() && Stocked() && Framed() && ReceiveSound(rx, tx, pinned, index) && rx.state.Character?
      requires Deciding(rx, heard, index, high)
      modifies this`tx, this`pinned, this`pinnedValid, this`edges, this`loss, this`frame, this`rx, this`slotValid, this`sent, this`log
      ensures Sound(index + 1) && BitTaken(config, reserve, index, now, high, old(rx), rx, old(Now()), Now())
      ensures Calm()
    {
      hide EdgesSound, StockSound, PassiveSound, SentSound, LineSound, SumSound, PinSound, MajorityHigh, ByMajority, Majorities, Fed;
      var bit := (index - rx.startIndex) / 10;
      if bit == 0 {
        if high {
          rx := rx.(state := Hunt);
          FailCharacter(index + 1);
        }
      } else if bit < BITS_PER_CHARACTER - 1 {
        TakeBit(index, high);
      } else if !high {
        rx := rx.(state := Resync, idleRun := 0);
        FailCharacter(index + 1);
      } else {
        AllByMajority(rx.shift, heard);
        var symbol := CompleteSymbol(now, index + 1);
      }
    }

    method TakeBit(index: nat, high: bool)
      requires TxSound() && Stocked() && Framed() && ReceiveSound(rx, tx, pinned, index) && rx.state.Character?
      requires Deciding(rx, heard, index, high) && 16 <= index - rx.startIndex < 96
      modifies this`tx, this`pinnedValid, this`edges, this`loss, this`frame, this`rx, this`slotValid
      ensures Sound(index + 1)
      ensures if old(rx).echo && old(tx).state.Active? && BitOf(pinned.wire[old(tx).echo], (index - old(rx).startIndex) / 10 - 1) != high
              then Lost(rx, Now())
              else Same(old(Now()), Now()) && rx == old(rx).(shift := old(rx).shift + [high])
      ensures Calm()
    {
      hide EdgesSound, StockSound, PassiveSound, SentSound, LineSound, SumSound, PinSound, MajorityHigh, ByMajority;
      var k := |rx.shift|;
      OneMoreBit(rx.shift, heard, high);
      rx := rx.(shift := rx.shift + [high]);
      if rx.echo && tx.state.Active? && BitOf(pinned.wire[tx.echo], k) != high {
        FailResponse(index + 1);
      }
    }

    /** The symbol is that of the majorities heard; as an echo it is exactly the symbol that was sent. */
    method CompleteSymbol(now: nat, ghost at: nat) returns (symbol: byte)
      requires TxSound() && Stocked() && Framed() && rx.state.Character? && !tx.state.Waiting? && rx.startIndex < at
      requires |heard| == 97 && rx.shift == Majorities(heard)
      requires tx.state.Active? ==>
        rx.echo && tx.echo < Begun(tx.bit) && tx.echo < |pinned.wire| && Matches(rx.shift, pinned.wire[tx.echo])
      modifies this`tx, this`pinned, this`pinnedValid, this`edges, this`loss, this`frame, this`rx, this`sent, this`log
      ensures Sound(at) && symbol == SymbolOf(Majorities(heard)) 
      ensures SymbolTaken(config, reserve, rx.startTick, now, old(Now()), Now(), symbol) && rx == old(rx).(state := StopTail)
      ensures old(tx).state.Active? ==> symbol == old(pinned.wire[tx.echo])
      ensures Calm()
    {
      hide EdgesSound, StockSound, PassiveSound, Majorities, SumSound, PinSound, SentSound, LineSound, Fed, SymbolTaken;
      rx := rx.(state := StopTail);
      symbol := SymbolOf(rx.shift);
      if tx.state.Active? { MatchedSymbol(rx.shift, pinned.wire[tx.echo]); }
      TakeSymbol(symbol, now);
    }

    method TakeSymbol(symbol: byte, now: nat)
      requires TxSound() && Stocked() && Framed() && !tx.state.Waiting?
      requires tx.state.Active? ==> rx.echo && tx.echo < Begun(tx.bit) && tx.echo < |pinned.wire| && symbol == pinned.wire[tx.echo]
      modifies this`tx, this`pinned, this`pinnedValid, this`edges, this`loss, this`frame, this`sent, this`log
      ensures TxSound() && Stocked() && Framed() && SymbolTaken(config, reserve, rx.startTick, now, old(Now()), Now(), symbol)
      ensures Calm()
    {
      hide EdgesSound, StockSound, PassiveSound, SumSound, PinSound, SentSound, LineSound, ScheduleFits, Admits, Pins, Misaddressed;
      PinInside();
      if rx.echo && tx.state.Active? { CountEcho(); }
      Publish();
      if tx.state.AwaitAck? { HandleFinalAck(symbol, now); }
      FeedFrame(symbol, now);
      PinInside();
    }

    /** A pin outside an exchange lasts from the target to the CRC; inside one it always holds. */
    lemma PinInside()
      requires Pinned()
      ensures !tx.state.Idle? ==> pinnedValid && frame.phase.Trailing?
      ensures tx.state.Idle? && pinnedValid ==> AfterTarget(frame.phase)
    {
    }

    /** One more symbol came back as it was sent, and no symbol sent is a SYN. */
    method CountEcho()
      requires TxSound() && Stocked() && Framed() && tx.state.Active? && tx.echo < Begun(tx.bit) && tx.echo < |pinned.wire|
      modifies this`tx
      ensures TxSound() && Stocked() && Framed() && tx == old(tx).(echo := old(tx).echo + 1) && pinned.wire[old(tx).echo] != SYN
    {
      hide EdgesSound, StockSound;
      assert pinned.wire[tx.echo] in pinned.wire;
      tx := tx.(echo := tx.echo + 1);
    }

    method ObserveCharacter(level: Level, index: nat, now: nat)
      requires Sound(index) && rx.state.Character?
      modifies this`tx, this`pinned, this`pinnedValid, this`edges, this`loss, this`frame, this`rx, this`slotValid, this`sent, this`heard, this`log
      ensures Sound(index + 1) && heard == old(heard) + [level] && (old(rx).echo && old(tx).state.Active? ==> old(tx).echo < |old(pinned).wire|)
      ensures Sampled(config, reserve, index, now, heard, old(rx), rx, old(Now()), Now())
      ensures Calm()
    {
      hide TxSound, Stocked, Framed, OpenVotes, MajorityHigh, ByMajority, Matches, BitTaken;
      var position := (index - rx.startIndex) % 10;
      HeardMore(rx, heard, level, index);
      VoteMore(heard, level);
      heard := heard + [level];
      if position < 4 || position > 6 { return; }
      if level.High? { rx := rx.(votes := rx.votes + 1); }
      if position != 6 { return; }
      var high := rx.votes >= 2;
      rx := rx.(votes := 0);
      DecideBit(index, now, high);
      VotesAside(config, reserve, index, now, high, old(rx), rx, old(Now()), Now(), 0);
    }

    /** What a sample can meet: a character that began before it, echoing a symbol that was begun. */
    ghost predicate Observable(index: nat)
      reads this`rx, this`tx, this`pinned
    {
      && (rx.state.Character? || rx.state.StopTail? ==> rx.startIndex <= index)
      && (rx.state.Character? ==> !rx.finalComplete)
      && (rx.state.Character? && rx.echo && tx.state.Active? ==> tx.echo < |pinned.wire|)
      && (tx.state.Active? ==> tx.base <= tx.bit)
    }

    lemma SampleSeen(index: nat)
      requires Sound(index)
      ensures Observable(index)
    {
    }

    method Observe(level: Level, index: nat, now: nat)
      requires Sound(index)
      modifies this`tx, this`pinned, this`pinnedValid, this`edges, this`loss, this`frame, this`rx, this`slotValid, this`sent, this`heard, this`log
      ensures Sound(index + 1) && old(Observable(index)) && Calm()
      ensures Observed(config, reserve, level, index, now, heard, old(rx), rx, old(Now()), Now())
    {
      hide TxSound, Stocked, Framed, ReceiveSound, HeardSound, LevelTaken, Observed;
      SampleSeen(index);
      TakeLevel(level, index, now);
      PreviousAside(config, reserve, level, index, now, heard, old(rx), rx, old(Now()), Now());
      Remember(level, index + 1);
    }

    method Remember(level: Level, ghost at: nat)
      requires Sound(at)
      modifies this`rx
      ensures Sound(at) && rx == old(rx).(previous := level)
    {
      hide EdgesSound, StockSound, PassiveSound, SentSound, LineSound, SumSound, PinSound;
      rx := rx.(previous := level);
    }

    method TakeLevel(level: Level, index: nat, now: nat)
      requires Sound(index) && Observable(index)
      modifies this`tx, this`pinned, this`pinnedValid, this`edges, this`loss, this`frame, this`rx, this`slotValid, this`sent, this`heard, this`log
      ensures Sound(index + 1) && Calm()
      ensures LevelTaken(config, reserve, level, index, now, heard, old(rx), rx, old(Now()), Now())
    {
      hide EdgesSound, StockSound, PassiveSound, SentSound, LineSound, SumSound, PinSound, Sampled, Started;
      match rx.state {
        case Resync =>
          if level.High? {
            rx := rx.(idleRun := rx.idleRun + 1);
            if rx.idleRun >= RESYNC_SAMPLES { rx := rx.(state := Hunt); }
          } else {
            rx := rx.(idleRun := 0);
          }
        case Hunt => if level.Low? && rx.previous.High? { BeginCharacter(index, now); }
        case Character => ObserveCharacter(level, index, now);
        case StopTail =>
          if level.Low? {
            BeginCharacter(index, now);
          } else if index - rx.startIndex >= 99 {
            rx := rx.(finalComplete := true, state := Hunt);
          }
      }
    }

    // ---- One step ----

    /** A sample is due, and none before it was missed. */
    ghost predicate DueNow(now: nat)
      reads sampler
    {
      sampler.anchor <= now && sampler.hz > 0 && now >= sampler.deadline && (IndexAt(sampler.anchor, now, sampler.hz) - sampler.next) % TWO64 == 0
    }

    /** Missed samples cannot be made up: they fail whatever was going on; a sample in time is observed. */
    method StepRx(now: nat, level: Level)
      requires Valid() && now == lastNow
      modifies sampler, this`tx, this`pinned, this`pinnedValid, this`edges, this`loss, this`frame, this`rx, this`slotValid, this`sent, this`heard, this`log
      ensures Valid() && Calm()
      ensures now < old(sampler.deadline) ==> Now() == old(Now()) && rx == old(rx) && loss == old(loss)
      ensures old(DueNow(now)) ==> old(Observable(sampler.next)) && sampler.next == old(sampler.next) + 1
      ensures old(DueNow(now)) ==>
        Observed(config, reserve, level, old(sampler.next), now, heard, old(rx), rx, old(Now()), Now())
      ensures now >= old(sampler.deadline) && !old(DueNow(now)) ==> Ended(Now()) && !slotValid && !rx.state.Character?
    {
      hide TxSound, Stocked, Framed, ReceiveSound, HeardSound, Observed, IndexAt, EdgesSound;
      SampleSeen(sampler.next);
      ghost var next := sampler.next;
      var due := sampler.Poll(now);
      if due.None? { return; }
      var (index, gap) := due.value;
      if gap > 0 {
        FailResponse(index);
        ghost var r, a := rx, Now();
        Observe(level, index, now);
        LostStays(config, reserve, level, index, now, heard, r, rx, a, Now());
        return;
      }
      Observe(level, index, now);
    }

    /** Puts the next bit on the line, with an edge only where the level changes. */
    method PutBit(ghost at: nat)
      requires Sound(at) && tx.state.Active? && tx.bit < BITS_PER_CHARACTER * |pinned.wire|
      modifies this`tx, this`edges, this`loss
      ensures Sound(at) && tx == old(tx).(bit := old(tx.bit) + 1, level := BitLevel(pinned.wire, old(tx.bit)))
      ensures edges == if tx.level == old(tx.level) then old(edges) else old(edges) + [tx.level]
      ensures Calm()
    {
      hide StockSound, Begun;
      var level := BitLevel(pinned.wire, tx.bit);
      BegunGrows(tx.bit);
      if level != tx.level { WriteEdge(level); }
      tx := tx.(bit := tx.bit + 1);
    }

    /** The next bit of an active response, when it is due and not too late for an edge. */
    method DriveBit(now: nat, ghost at: nat)
      requires Sound(at) && tx.state.Active? && tx.bit < BITS_PER_CHARACTER * |pinned.wire|
      modifies this`tx, this`pinnedValid, this`edges, this`loss, this`frame, this`rx, this`slotValid
      ensures Sound(at) && BitDriven(config, old(tx), now, old(rx), rx, old(Now()), Now())
      ensures Calm()
    {
      hide StockSound, PassiveSound, SentSound, TxDeadline, EdgesSound, BitLevel, LineLevel, Begun;
      var deadline := TxDeadline(config, tx.anchor, tx.base, tx.bit);
      if now < deadline { return; }
      if BitLevel(pinned.wire, tx.bit) != tx.level && now > deadline + config.lateTolerance {
        FailResponse(at);
        return;
      }
      PutBit(at);
    }

    method StepTx(now: nat, ghost at: nat)
      requires Sound(at)
      modifies this`tx, this`pinnedValid, this`edges, this`loss, this`frame, this`rx, this`slotValid, this`sent
      ensures Sound(at) && Transmitted(config, now, old(rx), rx, old(Now()), Now())
      ensures Calm()
    {
      hide TxSound, Stocked, Framed, ReceiveSound, HeardSound, TxDeadline, ActiveStep;
      if tx.state.Idle? { return; }
      if tx.state.AwaitAck? {
        if now >= AckEnd(config, tx.ackSince) { GiveUp(at); }
        return;
      }
      AnchoredBounds(at);
      if tx.state.Waiting? {
        if !rx.finalComplete || now < TxDeadline(config, tx.anchor, tx.base, tx.base) { return; }
        StartTx(at);
        StepActive(now, at);
        StartAside(config, now, old(rx), rx, old(Now()), Now(), old(tx).(state := Active));
      } else {
        StepActive(now, at);
      }
    }

    lemma AnchoredBounds(at: nat)
      requires Sound(at) && (tx.state.Waiting? || tx.state.Active?)
      ensures tx.base <= tx.bit && tx.base <= BITS_PER_CHARACTER * tx.echo && (tx.state.Waiting? ==> tx.bit == tx.base)
    {
    }

    /** The final symbol did not come in time. */
    method GiveUp(ghost at: nat)
      requires Sound(at) && tx.state.AwaitAck?
      modifies this`tx, this`pinnedValid, this`edges, this`loss
      ensures Sound(at) && tx == old(tx).(state := Idle) && !pinnedValid && edges == old(edges)
      ensures Calm()
    {
      hide EdgesSound, StockSound;
      UnpinnedStock();
      AbortTx();
    }

    /** The response goes on the wire. */
    method StartTx(ghost at: nat)
      requires Sound(at) && tx.state.Waiting?
      modifies this`tx, this`sent
      ensures Sound(at) && tx == old(tx).(state := Active) && sent == old(sent) + 1
    {
      hide EdgesSound, StockSound;
      tx := tx.(state := Active);
      sent := sent + 1;
    }

    method StepActive(now: nat, ghost at: nat)
      requires Sound(at) && tx.state.Active?
      modifies this`tx, this`pinnedValid, this`edges, this`loss, this`frame, this`rx, this`slotValid
      ensures Sound(at) && ActiveStep(config, old(tx), now, old(rx), rx, old(Now()), Now())
      ensures Calm()
    {
      hide EdgesSound, StockSound, TxDeadline, SentSound, BitLevel;
      var length := |pinned.wire|;
      BegunWithin(tx.bit, length);
      if tx.echo < length && now >= TxDeadline(config, tx.anchor, tx.base, (tx.echo + 1) * BITS_PER_CHARACTER) + config.echoAllowance {
        FailResponse(at);
        return;
      }
      if tx.bit < BITS_PER_CHARACTER * length {
        DriveBit(now, at);
      } else if tx.echo == length && now >= TxDeadline(config, tx.anchor, tx.base, tx.bit) {
        BegunWhole(length);
        CompleteTx(now);
      }
    }

    /** A refused event is a protocol gap: once per loss it fails the affected state; without one nothing happens. */
    method ApplyLoss(ghost at: nat)
      requires Sound(at)
      modifies this`tx, this`pinnedValid, this`edges, this`loss, this`frame, this`rx, this`slotValid
      ensures Sound(at)
      ensures !old(loss).pending ==> loss == old(loss) && rx == old(rx) && Now() == old(Now())
      ensures old(loss).pending && !old(loss).applied ==> Lost(rx, Now())
      ensures old(loss).pending && old(loss).applied ==> rx == old(rx) && Now() == old(Now())
      ensures Calm()
    {
      hide TxSound, Stocked, Framed, ReceiveSound, HeardSound;
      if !loss.pending { return; }
      if !loss.applied {
        loss := loss.(applied := true);
        LoseAll(at);
      }
      var accepted := sink(loss.asked);
      loss := loss.(asked := loss.asked + 1);
      if accepted { loss := loss.(pending := false, applied := false); }
    }

    /**
      At most one queued command per step. A response replaces the stock exactly when it is newer than
      every one before and no loss is open; a withdrawal clears the stock, ends an exchange not on the
      line and lets no retransmission follow one that is.
      */
    method StepHousekeeping(ghost at: nat)
      requires Sound(at)
      modifies this`controls, this`slot, this`slotValid, this`lastGeneration, this`tx, this`pinnedValid, this`edges, this`loss
      ensures Sound(at) && controls == if old(controls) == [] then [] else old(controls)[1..]
      ensures old(controls) == [] ==> Now() == old(Now()) && loss == old(loss) && lastGeneration == old(lastGeneration)
      ensures old(controls) != [] && old(controls)[0].Offer? ==>
        var p := old(controls)[0].response;
        var taken := !old(loss).pending && p.generation > old(lastGeneration);
        && tx == old(tx) && pinnedValid == old(pinnedValid) && edges == old(edges)
        && slot == (if taken then p else old(slot)) && slotValid == (taken || old(slotValid))
        && lastGeneration == (if taken then p.generation else old(lastGeneration))
      ensures old(controls) != [] && old(controls)[0].Withdraw? ==>
        && !slotValid && edges == old(edges) && pinnedValid == old(tx).state.Active?
        && tx == old(tx).(cancel := true, state := if old(tx).state.Active? then EngineState.Active else EngineState.Idle)
      ensures Calm()
    {
      hide EdgesSound, ExchangeSound, SentSound;
      if |controls| == 0 { return; }
      var item := controls[0];
      if item.Offer? { Install(item.response, at); } else { WithdrawStock(at); }
    }

    method Install(p: Prepared, ghost at: nat)
      requires Sound(at) && controls != [] && controls[0] == Offer(p)
      modifies this`controls, this`slot, this`slotValid, this`lastGeneration, this`loss
      ensures Sound(at) && controls == old(controls)[1..]
      ensures var taken := !old(loss).pending && p.generation > old(lastGeneration);
        && slot == (if taken then p else old(slot)) && slotValid == (taken || old(slotValid))
        && lastGeneration == (if taken then p.generation else old(lastGeneration))
      ensures Calm()
    {
      hide EdgesSound, ExchangeSound, SentSound, HeardSound, ReceiveSound, SumSound, PinSound;
      controls := controls[1..];
      if loss.pending { return; }
      if p.generation <= lastGeneration {
        Publish();
        return;
      }
      lastGeneration, slot, slotValid := p.generation, p, true;
    }

    method WithdrawStock(ghost at: nat)
      requires Sound(at) && controls != []
      modifies this`controls, this`slotValid, this`tx, this`pinnedValid, this`edges, this`loss
      ensures Sound(at) && controls == old(controls)[1..] && !slotValid && edges == old(edges)
      ensures pinnedValid == old(tx).state.Active?
      ensures tx == old(tx).(cancel := true, state := if old(tx).state.Active? then EngineState.Active else EngineState.Idle)
      ensures Calm()
    {
      hide Sound;
      EmptyStock(at);
      CancelExchange(at);
    }

    method EmptyStock(ghost at: nat)
      requires Sound(at) && controls != []
      modifies this`controls, this`slotValid
      ensures Sound(at) && controls == old(controls)[1..] && !slotValid
    {
      hide EdgesSound, ExchangeSound, SentSound, HeardSound, ReceiveSound, SumSound, PinSound;
      controls := controls[1..];
      slotValid := false;
    }

    method CancelExchange(ghost at: nat)
      requires Sound(at)
      modifies this`tx, this`pinnedValid, this`edges, this`loss
      ensures Sound(at) && edges == old(edges) && pinnedValid == old(tx).state.Active?
      ensures tx == old(tx).(cancel := true, state := if old(tx).state.Active? then EngineState.Active else EngineState.Idle)
      ensures Calm()
    {
      hide EdgesSound, StockSound, HeardSound, SumSound;
      UnpinnedStock();
      if tx.state.Waiting? || tx.state.AwaitAck? { AbortTx(); }
      CancelRetry();
    }

    method CancelRetry()
      requires TxSound() && Stocked()
      modifies this`tx, this`pinnedValid
      ensures TxSound() && Stocked() && tx == old(tx).(cancel := true) && pinnedValid == (old(pinnedValid) && !tx.state.Idle?)
    {
      hide EdgesSound;
      tx := tx.(cancel := true);
      if tx.state.Idle? { pinnedValid := false; }
    }

    /** Every event is taken, no loss is open and no command waits. */
    ghost predicate Quiet()
      reads this`loss, this`controls
    {
      Heeded() && !loss.pending && controls == []
    }

    /**
      Observation precedes emission; housekeeping runs last. In quiet running a step with no sample due
      is one pass over the transmission, and out of an exchange a step is the sample it takes.
      */
    method Step(now: nat, level: Level)
      requires Valid() && now <= MAX64
      modifies this, sampler
      ensures Valid() && offers == old(offers) && lastNow == (if now < old(lastNow) then old(lastNow) else now)
      ensures old(Quiet()) && old(lastNow) <= now < old(sampler.deadline) ==>
        old(Anchored()) && Transmitted(config, now, old(rx), rx, old(Now()), Now())
      ensures old(Quiet()) && old(lastNow) <= now && old(DueNow(now)) && old(tx).state.Idle? ==>
        old(Observable(sampler.next)) && Observed(config, reserve, level, old(sampler.next), now, heard, old(rx), rx, old(Now()), Now())
      ensures now < old(lastNow) && !old(regressing) ==> Ended(Now()) && !slotValid
    {
      hide TxSound, Stocked, Framed, ReceiveSound, HeardSound, Observed, IndexAt, EdgesSound, ActiveStep, Lost, Ended;
      if now < lastNow {
        StepBack();
        return;
      }
      regressing, lastNow := false, now;
      AnchoredNow(sampler.next);
      StepRx(now, level);
      ghost var r, a := rx, Now();
      Emit(now, sampler.next);
      if old(Quiet()) && old(tx).state.Idle? && old(DueNow(now)) {
        IdleWaits(config, reserve, level, old(sampler.next), now, heard, old(rx), r, old(Now()), a);
      }
    }

    /** A tick that went back fails whatever was going on, once until time moves on again. */
    method StepBack()
      requires Valid()
      modifies this`regressing, this`tx, this`pinnedValid, this`edges, this`loss, this`frame, this`rx, this`slotValid
      ensures Valid() && regressing && (!old(regressing) ==> Ended(Now()) && !slotValid)
    {
      hide TxSound, Stocked, Framed, ReceiveSound, HeardSound;
      if !regressing {
        regressing := true;
        FailResponse(sampler.next);
      }
      ApplyLoss(sampler.next);
    }

    /** What the boundaries of a transmission are counted from. */
    ghost predicate Anchored()
      reads this`tx
    {
      tx.state.Waiting? || tx.state.Active? ==> tx.base <= tx.bit && tx.base <= BITS_PER_CHARACTER * tx.echo
    }

    lemma AnchoredNow(at: nat)
      requires Sound(at)
      ensures Anchored()
    {
    }

    /** What follows an observation: losses, the next bit, losses again, one command. */
    method Emit(now: nat, ghost at: nat)
      requires Sound(at)
      modifies this`tx, this`pinned, this`pinnedValid, this`edges, this`loss, this`frame, this`rx, this`slot, this`slotValid,
        this`lastGeneration, this`controls, this`sent
      ensures Sound(at)
      ensures old(Quiet()) ==> old(Anchored()) && Transmitted(config, now, old(rx), rx, old(Now()), Now())
    {
      hide TxSound, Stocked, Framed, ReceiveSound, HeardSound, Transmitted;
      AnchoredNow(at);
      ApplyLoss(at);
      StepTx(now, at);
      ApplyLoss(at);
      StepHousekeeping(at);
    }

    // ---- Controls ----

    method OfferPrepared(p: Prepared) returns (ok: bool)
      requires Valid() && (p.generation == 0 || Made(p))
      modifies this`controls, this`offers
      ensures Valid() && ok == (p.generation != 0 && |old(controls)| < CONTROL_CAPACITY)
      ensures controls == if ok then old(controls) + [Offer(p)] else old(controls)
      ensures offers == old(offers) + if ok then {p} else {}
    {
      if p.generation == 0 || |controls| == CONTROL_CAPACITY { return false; }
      MadeIsReady(p);
      controls := controls + [Offer(p)];
      offers := offers + {p};
      return true;
    }

    method OfferWithdraw() returns (ok: bool)
      requires Valid()
      modifies this`controls
      ensures Valid() && ok == (|old(controls)| < CONTROL_CAPACITY)
    {
      if |controls| == CONTROL_CAPACITY { return false; }
      controls := controls + [Withdraw];
      return true;
    }

    // ---- What the invariant means ----

    /**
      An exchange answers a whole request that an initiator sent to this address, its CRC right, with a
      response that was offered for exactly this request's PB, SB and NN; and so does every reservation
      of one, as far as the request was read.
      */
    lemma AnswersOwnRequests()
      requires Valid()
      ensures !tx.state.Idle? ==> Answered(log, pinned, config.address) && pinned in offers && Made(pinned) && frame.phase.Trailing?
      ensures tx.state.Idle? && pinnedValid ==> AfterTarget(frame.phase) && Own(log.logical, config.address) && pinned in offers
      ensures AfterTarget(frame.phase) ==> log.raw == Wire.Escape(log.logical) + if frame.escape && !frame.phase.AtCrc? then [ESC] else []
    {
      hide Made, Answered, Own, Wire.Escape, Crc.Run;
    }

    /** The line is low only while a response is active; then it carries the pinned symbol's bit. */
    lemma LineLowOnlyWhileActive()
      requires Valid()
      ensures tx.level.Low? ==> tx.state.Active? && tx.bit > tx.base && BitLevel(pinned.wire, tx.bit - 1).Low?
      ensures EdgesSound(edges, tx.level)
    {
    }

    /** An engine that was never offered a response never touched the line. */
    lemma PassiveWritesNothing()
      requires Valid() && offers == {}
      ensures edges == [] && tx.state.Idle? && tx.level.High?
    {
    }

    /** Each admission goes on the wire at most twice, the second time only as a retransmission. */
    lemma SentAtMostTwice()
      requires Valid()
      ensures sent <= 2 && (tx.state.Active? && !tx.retried ==> sent == 1) && (sent == 2 && !tx.state.Idle? ==> tx.retried)
    {
    }

    /** Every deadline the engine compares with while transmitting is exact: nothing wraps. */
    lemma DeadlinesExact(bit: nat)
      requires Valid() && (tx.state.Waiting? || tx.state.Active?) && tx.base <= bit <= BITS_PER_CHARACTER * |pinned.wire|
      ensures BoundaryExact(config, tx, bit)
    {
      hide AllMade, PinSound, SumSound, StockSound, PassiveSound, HeardSound, ReceiveSound, EdgesSound, Ceil, TxDeadline;
      AdmittedNeverWraps(config, tx.anchor, tx.base, bit);
    }
  }

  /** Validates before any effect: an engine exists exactly for an acceptable configuration. */
  method NewEngine(c: Config, now: nat, answers: nat -> bool) returns (e: Option<Engine>)
    requires c.hz <= MAX64 && now <= MAX64
    ensures e.Some? <==> Acceptable(c, now)
    ensures e.Some? ==> fresh(e.value) && fresh(e.value.sampler) && e.value.Valid() && e.value.offers == {} && e.value.edges == []
  {
    if !Acceptable(c, now) { return None; }
    var engine := new Engine(c, now, answers);
    return Some(engine);
  }
}
