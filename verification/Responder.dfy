/**
  The AA26 responder: worker view, plan pool and receive events composed into one transaction at a
  time. The pool is shared with the host, so the responder carries the world it lives in as ghost
  state: each use of the view is one worker step of that world, and between two events the rest of
  the world may take any steps of its own.
  */
module Responder {
  import opened Octets
  import opened Overlap
  import opened Registry
  import opened WorkerView
  import opened RegistrySafety
  import opened PlanSafety
  import opened ResponderState
  import PlanTheorems
  import ViewEffects
  import LinkLedger
  import Link
  import LinkSafety
  import Address
  import Crc
  import Wire

  /** The link as this event's service left it, and the answer of the wire port. */
  datatype Env = Env(link: Link.System, accepts: bool)

  /** A plan adopted from the registry together with the link's reference to it. */
  datatype Binding = Binding(identity: Identity, ref: LinkLedger.PlanRef)

  datatype Config = Config(domain: nat, turnaround: nat, charTicks: nat, echoAllowance: nat, idleClose: nat)

  datatype Received = Received(value: byte, start: nat, tick: nat)

  /** A plan reference as it arrives on the control lane of one worker and stream. */
  datatype Ref = Ref(key: Key, worker: nat, stream: nat, plan: nat, expiry: nat)

  /** How the link of that worker and stream names the plan. */
  function LinkName(ref: Ref): LinkLedger.PlanRef {
    LinkLedger.PlanRef(ref.key.subscriber, ref.key.address, ref.key.epoch, ref.plan, ref.expiry)
  }

  /** AA24AdmitOutput, once the control lane has been serviced. */
  predicate AdmitsOutput(w: Link.Worker, command: LinkLedger.Command, tick: nat) {
    w.fence == Link.Open && Link.PlanUsable(w, command.ref) && w.active == Some(command) && command.Live(tick)
  }

  class Responder {
    const worker: nat
    const config: Config
    var slots: seq<Slot>
    var view: View
    var bindings: map<byte, Binding>
    var disarmed: bool
    var lastTick: nat
    var lastRaw: nat
    var nextSequence: nat
    var ordinal: nat
    var frame: Frame
    var txn: Txn
    var held: Option<LinkLedger.Command>
    var ack: Option<Notice>

    ghost var world: World
    ghost var track: Track

    /** Response symbols ever put on the wire, and the reasons transactions closed for. */
    ghost var sends: nat
    ghost var closed: seq<ResponderState.Reason>

    /** The fields are this worker's part of a reachable world. */
    ghost predicate Linked()
      reads this`world, this`view, this`slots
    {
      && Reachable(world) && worker in world.views && world.views[worker] == view && world.reg.slots == slots
      && view.worker == worker
    }

    ghost predicate Valid()
      reads this`world, this`view, this`slots, this`frame, this`txn, this`track, this`held
    {
      Linked() && TxnSound(world, frame, txn, track, view, held.Some?)
    }

    /** Nothing was sent, or one symbol of the active transaction over a clear lane. */
    ghost predicate Sent(before: nat, link: Link.System)
      requires link.worker.pc.Drained?
      reads this`sends, this`txn
    {
      sends == before || (sends == before + 1 && txn.active && Cleared(link, txn.ref))
    }

    constructor (c: Config, ghost w: World, v: View, pool: seq<Slot>)
      requires Reachable(w) && v.worker in w.views && w.views[v.worker] == v && w.reg.slots == pool && v.pin.None?
      ensures Valid() && worker == v.worker && world == w && !txn.active && held.None?
    {
      worker, config, slots, view := v.worker, c, pool, v;
      bindings, disarmed, lastTick, lastRaw, nextSequence, ordinal := map[], false, 0, 0, 1, 0;
      frame := Frame(Unsynced, false, 0, 0, 0, 0, 0, 0, []);
      txn, held, ack := NO_TXN, None, None;
      world, track, sends, closed := w, Track([], [], [], None), 0, [];
    }

    function At(tick: nat): Reading {
      Reading(config.domain, tick)
    }

    // ---- Authority ----

    /** Everything an output of the active transaction needs at this tick. */
    ghost predicate Authorized(link: Link.System, tick: nat)
      reads this`slots, this`view, this`txn, this`disarmed
    {
      && !disarmed && link.worker.fence == Link.Open && Link.PlanUsable(link.worker, txn.ref)
      && Live(slots, view, txn.key, txn.key, At(tick))
    }

    /** The first objection to an output, in the order the checks are made. */
    ghost function Objection(link: Link.System, tick: nat): ResponderState.Reason
      reads this`slots, this`view, this`txn, this`disarmed
    {
      if disarmed then GapSeen
      else if !LinkReason(link.worker, txn.ref).NoClose? then LinkReason(link.worker, txn.ref)
      else ReasonOf(Check(slots, view, txn.key, txn.key, At(tick)))
    }

    lemma AuthorizedExactly(link: Link.System, tick: nat)
      ensures Objection(link, tick).NoClose? <==> Authorized(link, tick)
    {
      hide Live, Check;
      LiveIsFaultless(slots, view, txn.key, txn.key, At(tick));
    }

    /** Nothing was sent, decided or closed. */
    twostate predicate Untouched()
      reads this`frame, this`txn, this`track, this`sends, this`closed, this`disarmed, this`bindings, this`ordinal, this`view
    {
      txn == old(txn) && sends == old(sends) && closed == old(closed) && disarmed == old(disarmed) && bindings == old(bindings)
    }

    /** The transaction is over, for this reason, and nothing was sent. */
    twostate predicate Ends(reason: ResponderState.Reason)
      reads this`frame, this`txn, this`track, this`sends, this`closed, this`disarmed, this`bindings, this`ordinal, this`view
    {
      && !txn.active && frame.stage.Skip? && sends == old(sends) && closed == old(closed) + [reason]
      && disarmed == (old(disarmed) || reason.ClockFault?)
    }

    // ---- Steps of the view ----

    /** The pool changes under the responder: any step of the world that is not its own. */
    method WorldMoves(pool: seq<Slot>, ghost a: Action)
      requires Valid() && Enabled(world, a) && Next(world, a).reg.slots == pool
      requires worker in Next(world, a).views && Next(world, a).views[worker] == view
      modifies this`slots, this`world
      ensures Valid() && slots == pool && world == Next(old(world), a)
    {
      hide Reachable, Next, SumSound, OutputSound;
      PlansKept(world, a, frame, txn, track);
      PlanTheorems.ReachableOn(world, a);
      slots := pool;
      world := Next(world, a);
    }

    /** The admission check observes the clock whatever it decides. */
    method Consult(now: Reading) returns (fault: PinFault)
      requires Linked()
      modifies this`view, this`world
      ensures Linked() && fault == Check(old(slots), old(view), txn.key, txn.key, now)
      ensures view == old(view).(clock := view.clock) && world.history == old(world).history
      ensures fault.NoFault? ==> Live(slots, view, txn.key, txn.key, now)
    {
      hide Reachable, Check;
      fault := Check(slots, view, txn.key, txn.key, now);
      LiveIsFaultless(slots, view, txn.key, txn.key, now);
      PlanTheorems.ReachableOn(world, Consults(worker, now));
      ClockIdempotent(view.clock, now);
      view := view.(clock := view.clock.Observe(now));
      world := Next(world, Consults(worker, now));
    }

    method ReleaseKey()
      requires Linked()
      modifies this`slots, this`view, this`world, this`ack
      ensures Linked() && world.history == old(world).history && view.stream == old(view).stream
      ensures old(view).pin.Some? && old(view).pin.value.key == txn.key ==> view.pin.None?
      ensures old(view).pin.Some? && old(view).pin.value.key == txn.key ==>
                ack == (if ViewEffects.Noted(old(view), old(view).pin.value.slot)
                        then Some(Notice(old(view).pin.value.slot, txn.key.identity)) else old(ack))
    {
      hide Reachable;
      PlanTheorems.ReachableOn(world, Releases(worker, txn.key));
      ReleaseWorker(slots, view, txn.key);
      world := Next(world, Releases(worker, txn.key));
      var (pool, v, made) := ReleasePin(slots, view, txn.key);
      slots, view := pool, v;
      if made.Some? { ack := made; }
    }

    /**
      Ends the transaction: nothing of it can authorize a later symbol, and a retirement noted while
      it ran is acknowledged.
      */
    method Close(reason: ResponderState.Reason)
      requires Valid()
      modifies this`slots, this`view, this`world, this`ack, this`frame, this`txn, this`disarmed, this`closed
      ensures Valid() && !txn.active && frame.stage.Skip? && world.history == old(world).history && view.stream == old(view).stream
      ensures disarmed == (old(disarmed) || reason.ClockFault?)
      ensures closed == old(closed) + if old(txn).active then [reason] else []
      ensures old(txn).active ==>
                ack == (if ViewEffects.Noted(old(view), old(view).pin.value.slot)
                        then Some(Notice(old(view).pin.value.slot, old(txn).key.identity)) else old(ack))
    {
      hide Reachable, Next;
      frame := frame.(stage := Skip, escape := false);
      if reason.ClockFault? { disarmed := true; }
      if !txn.active { return; }
      ReleaseKey();
      txn := NO_TXN;
      closed := closed + [reason];
    }

    /** Every output check again: armed, link open for this plan, exact key, revocation, deadlines. */
    method CheckAuthority(env: Env, tick: nat) returns (reason: ResponderState.Reason)
      requires Valid()
      modifies this`view, this`world
      ensures Valid() && world.history == old(world).history
      ensures reason == old(Objection(env.link, tick)) && (reason.NoClose? <==> old(Authorized(env.link, tick)))
      ensures reason.NoClose? ==> Live(slots, view, txn.key, txn.key, At(tick)) && LinkReason(env.link.worker, txn.ref).NoClose?
    {
      hide Reachable, SumSound, Check, LinkReason, Authorized;
      AuthorizedExactly(env.link, tick);
      if disarmed { return GapSeen; }
      var link := LinkReason(env.link.worker, txn.ref);
      if !link.NoClose? { return link; }
      var fault := Consult(At(tick));
      return ReasonOf(fault);
    }

    // ---- The request ----

    method StartFrame()
      requires Valid() && !txn.active
      modifies this`frame, this`track
      ensures Valid() && frame == old(frame).(stage := AtSource, escape := false, crc := 0)
    {
      hide Reachable;
      frame := frame.(stage := AtSource, escape := false, crc := 0);
      track := track.(raw := []);
    }

    /** An initiator's address opens a request under the next ordinal; any other symbol skips the frame. */
    twostate predicate SourceTaken(value: byte)
      reads this`frame, this`txn, this`track, this`sends, this`closed, this`disarmed, this`bindings, this`ordinal, this`view
    {
      if !Address.IsInitiator(value) then frame == old(frame).(stage := Skip) && ordinal == old(ordinal) && Untouched()
      else if old(ordinal) == MAX64 then frame.stage.Unsynced? && disarmed && !txn.active && sends == old(sends)
      else frame == old(frame).(source := value, stage := AtTarget, crc := frame.crc) && ordinal == old(ordinal) + 1 && Untouched()
    }

    method ObserveSource(value: byte)
      requires Valid() && frame.stage.AtSource?
      modifies this`slots, this`view, this`world, this`ack, this`frame, this`txn, this`disarmed, this`closed, this`track, this`ordinal
      ensures Valid() && SourceTaken(value)
    {
      hide Reachable, SumSound;
      if !Address.IsInitiator(value) {
        SourceSkipped(frame, track.raw);
        frame := frame.(stage := Skip);
        return;
      }
      if ordinal == MAX64 {
        RaiseGap(GapSeen);
        return;
      }
      ordinal := ordinal + 1;
      SourceRead(frame, track.raw, value);
      track := track.(raw := track.raw + [value]);
      frame := frame.(source := value, crc := Crc.Step(frame.crc, value), stage := AtTarget);
    }

    /** Closes the transaction and disarms admission until the next stream. */
    method RaiseGap(reason: ResponderState.Reason)
      requires Valid()
      modifies this`slots, this`view, this`world, this`ack, this`frame, this`txn, this`disarmed, this`closed
      ensures Valid() && !txn.active && disarmed && frame.stage.Unsynced? && world.history == old(world).history
      ensures closed == old(closed) + if old(txn).active then [reason] else []
    {
      hide Reachable;
      Close(reason);
      disarmed := true;
      frame := frame.(stage := Unsynced);
    }

    /**
      The request is for a plan this worker can answer with: armed, no live command of its own, the
      plan bound and clear on the link, current in the view, and its slot still holding it in time.
      */
    ghost predicate Selects(address: byte, link: Link.System, tick: nat)
      reads this`disarmed, this`held, this`bindings, this`view, this`slots, this`ordinal
    {
      && !disarmed && (held.Some? ==> !held.value.Live(tick))
      && address in bindings && LinkReason(link.worker, bindings[address].ref).NoClose?
      && ViewEffects.ClockTakes(view.clock, At(tick)) && ordinal > view.transactionTop
      && address in view.current && Resolves(slots, view.current[address])
      && var s := slots[view.current[address].index];
         Held(s) && s.validity.Holds(At(tick)) && s.identity == bindings[address].identity
    }

    /** Pins the current plan provisionally; a pin of another plan than the bound one is given back. */
    method SelectPlan(address: byte, env: Env, tick: nat) returns (selected: bool)
      requires Valid() && !txn.active && !Selected(frame.stage)
      modifies this`slots, this`view, this`world, this`ack, this`txn, this`held
      ensures Linked() && world.history == old(world).history
      ensures selected <==> old(Selects(address, env.link, tick))
      ensures selected ==> address in bindings && address in old(view).current
      ensures selected ==> view.pin == Some(Pin(WireKey(bindings[address].identity, ordinal), old(view).current[address]))
      ensures selected ==> txn == NO_TXN.(active := true, key := view.pin.value.key, ref := bindings[address].ref) && held.None?
      ensures !selected ==> view.pin.None? && txn == NO_TXN && (held == old(held) || held.None?)
    {
      hide Reachable, TxnSound, LinkReason;
      NothingPinned(world, frame, txn, track, view, held.Some?);
      if disarmed { return false; }
      if held.Some? {
        if held.value.Live(tick) { return false; }
        held := None;
      }
      if address !in bindings || !LinkReason(env.link.worker, bindings[address].ref).NoClose? { return false; }
      ViewEffects.SelectedExactly(slots, view, address, ordinal, At(tick));
      PinPlan(address, tick);
      if view.pin.None? { return false; }
      if view.pin.value.key.identity != bindings[address].identity {
        txn := NO_TXN.(active := true, key := view.pin.value.key);
        ReleaseKey();
        txn := NO_TXN;
        return false;
      }
      txn := NO_TXN.(active := true, key := view.pin.value.key, ref := bindings[address].ref);
      return true;
    }

    method PinPlan(address: byte, tick: nat)
      requires Linked() && view.pin.None?
      modifies this`slots, this`view, this`world
      ensures Linked() && world.history == old(world).history
      ensures view == Select(old(slots), old(view), address, ordinal, At(tick)).1
    {
      hide Reachable;
      var now := At(tick);
      PlanTheorems.ReachableOn(world, Chooses(worker, address, ordinal, now));
      world := Next(world, Chooses(worker, address, ordinal, now));
      var (pool, v) := Select(slots, view, address, ordinal, now);
      slots, view := pool, v;
    }

    /** A target's address with a plan to answer it selects that plan; any other skips the frame. */
    twostate predicate TargetTaken(value: byte, env: Env, tick: nat)
      reads this`frame, this`txn, this`track, this`sends, this`closed, this`disarmed, this`bindings, this`ordinal, this`view
    {
      && sends == old(sends) && closed == old(closed) && disarmed == old(disarmed) && bindings == old(bindings)
      && if Address.IsTarget(value) && old(Selects(value, env.link, tick)) then
           && frame == old(frame).(target := value, stage := AtPB, crc := frame.crc)
           && txn == NO_TXN.(active := true, key := WireKey(bindings[value].identity, ordinal), ref := bindings[value].ref)
           && view.pin == Some(Pin(txn.key, old(view).current[value]))
         else frame.stage.Skip? && !txn.active
    }

    /** Selects at destination time; it authorizes no output. */
    method ObserveTarget(value: byte, env: Env, tick: nat)
      requires Valid() && frame.stage.AtTarget?
      modifies this`slots, this`view, this`world, this`ack, this`frame, this`txn, this`disarmed, this`closed, this`track, this`held
      ensures Valid() && sends == old(sends) && TargetTaken(value, env, tick)
    {
      hide Reachable, SumSound, Address.IsTarget, LinkReason, Selects;
      TargetRead(frame, track.raw, value);
      frame := frame.(crc := Crc.Step(frame.crc, value), target := value, stage := Skip);
      track := track.(raw := track.raw + [value]);
      if !Address.IsTarget(value) { return; }
      var selected := SelectPlan(value, env, tick);
      if !selected { return; }
      frame := frame.(stage := AtPB);
      track := track.(emitted := [], echoed := [], verdict := None);
    }

    /** The logical byte just read, with the CRC already run over its raw symbols. */
    ghost predicate Extended(logical: byte)
      reads this
    {
      && InRequest(frame.stage) && !frame.stage.AtCrc? && !frame.escape
      && frame.crc == Crc.Run(0, track.raw) && track.raw == Wire.Escape(Taken(frame) + [logical])
      && (frame.stage.AtData? ==> |frame.data| < frame.nn <= MAX_REQUEST_DATA)
      && Address.IsInitiator(frame.source)
    }

    /** What holds of the transaction while its request is being read. */
    ghost predicate Reading26()
      reads this
    {
      && Linked() && txn.active && !txn.prepared && !txn.awaitEcho && txn.offset == 0 && held.None?
      && view.pin.Some? && view.pin.value.key == txn.key && track.emitted == [] && track.echoed == []
    }

    /**
      The request f is complete. A pin that no longer answers ends the transaction; otherwise it waits
      for the CRC, prepared exactly when an entry of its plan answers f.
      */
    twostate predicate Matched(f: Frame, tick: nat)
      reads this`frame, this`txn, this`track, this`sends, this`closed, this`disarmed, this`bindings, this`ordinal, this`view
    {
      var fault := Check(old(slots), old(view), old(txn).key, old(txn).key, At(tick));
      if !fault.NoFault? then Ends(ReasonOf(fault))
      else
        && frame == f.(crc := frame.crc) && sends == old(sends) && closed == old(closed) && disarmed == old(disarmed)
        && txn == old(txn).(prepared := txn.prepared, entry := txn.entry, replyLen := txn.replyLen)
        && txn.key.identity in old(world).history.prepared
        && var entries := old(world).history.prepared[txn.key.identity].candidate.entries;
           && (txn.prepared ==> txn.entry < |entries| && PlanTheorems.Answers(entries[txn.entry], QueryOf(f)))
           && (!txn.prepared ==> forall i: nat :: i < |entries| ==> !PlanTheorems.Answers(entries[i], QueryOf(f)))
    }

    /** Each logical byte goes to its field, and the field after it comes next. */
    twostate predicate LogicalTaken(logical: byte, tick: nat)
      reads this`frame, this`txn, this`track, this`sends, this`closed, this`disarmed, this`bindings, this`ordinal, this`view
    {
      var f := old(frame).(crc := frame.crc, escape := false);
      match old(frame).stage
      case AtPB => frame == f.(pb := logical, stage := AtSB) && Untouched()
      case AtSB => frame == f.(sb := logical, stage := AtNN) && Untouched()
      case AtNN =>
        if logical > MAX_REQUEST_DATA then Ends(Malformed)
        else if logical == 0 then Matched(f.(nn := 0, data := [], stage := AtCrc), tick)
        else frame == f.(nn := logical, data := [], stage := AtData) && Untouched()
      case AtData =>
        var g := f.(data := f.data + [logical]);
        if |g.data| == g.nn then Matched(g.(stage := AtCrc), tick) else frame == g && Untouched()
      case _ => true
    }

    method ObserveLogical(logical: byte, env: Env, tick: nat)
      requires Reading26() && Extended(logical)
      modifies this`slots, this`view, this`world, this`ack, this`frame, this`txn, this`disarmed, this`closed
      ensures Valid() && sends == old(sends) && LogicalTaken(logical, tick)
    {
      hide Reachable, Crc.Run, Wire.Escape, Address.IsInitiator;
      ghost var taken := Taken(frame) + [logical];
      match frame.stage {
        case AtPB =>
          frame := frame.(pb := logical, stage := AtSB);
          assert Taken(frame) == taken;
        case AtSB =>
          frame := frame.(sb := logical, stage := AtNN);
          assert Taken(frame) == taken;
        case AtNN => TakeLength(logical, tick);
        case AtData => TakeData(logical, tick);
      }
    }

    method TakeLength(logical: byte, tick: nat)
      requires Reading26() && Extended(logical) && frame.stage.AtNN?
      modifies this`slots, this`view, this`world, this`ack, this`frame, this`txn, this`disarmed, this`closed
      ensures Valid() && sends == old(sends) && LogicalTaken(logical, tick)
    {
      hide Reachable, Crc.Run, Wire.Escape, Address.IsInitiator;
      if logical > MAX_REQUEST_DATA {
        Abandon(Malformed);
        return;
      }
      ghost var taken := Taken(frame) + [logical];
      frame := frame.(nn := logical, data := [], stage := if logical == 0 then AtCrc else AtData);
      assert Taken(frame) == taken;
      if logical == 0 { Prepare(tick); }
    }

    method TakeData(logical: byte, tick: nat)
      requires Reading26() && Extended(logical) && frame.stage.AtData?
      modifies this`slots, this`view, this`world, this`ack, this`frame, this`txn, this`disarmed, this`closed
      ensures Valid() && sends == old(sends) && LogicalTaken(logical, tick)
    {
      hide Reachable, Crc.Run, Wire.Escape, Address.IsInitiator;
      ghost var taken := Taken(frame) + [logical];
      frame := frame.(data := frame.data + [logical]);
      frame := frame.(stage := if |frame.data| == frame.nn then AtCrc else AtData);
      assert Taken(frame) == taken;
      if frame.stage.AtCrc? { Prepare(tick); }
    }

    /** Closing from the middle of a request. */
    method Abandon(reason: ResponderState.Reason)
      requires Reading26()
      modifies this`slots, this`view, this`world, this`ack, this`frame, this`txn, this`disarmed, this`closed
      ensures Valid() && world.history == old(world).history && Ends(reason)
    {
      hide Reachable, Next;
      frame := frame.(stage := Skip, escape := false);
      if reason.ClockFault? { disarmed := true; }
      ReleaseKey();
      txn := NO_TXN;
      closed := closed + [reason];
    }

    /** Matches the complete request before its CRC arrives; no match stays silent to the end. */
    method Prepare(tick: nat)
      requires Valid() && frame.stage.AtCrc? && !txn.prepared && !frame.escape
      modifies this`slots, this`view, this`world, this`ack, this`frame, this`txn, this`disarmed, this`closed
      ensures Valid() && sends == old(sends) && Matched(old(frame), tick)
    {
      hide Reachable, SumSound, Live, Match, Check, PlanTheorems.Answers;
      var now := At(tick);
      var fault := Consult(now);
      if !fault.NoFault? {
        Close(ReasonOf(fault));
        return;
      }
      SourceIsInitiator(frame, track.raw);
      PlanTheorems.MatchIsTheOnlyOne(world, worker, txn.key, txn.key, QueryOf(frame), now);
      var m := Match(slots, view, txn.key, txn.key, QueryOf(frame), now);
      if m.None? { return; }
      PlanTheorems.LengthIsPrepared(world, worker, txn.key, now, m.value);
      var length := PlanTheorems.ResponseLength(slots, view, m.value);
      txn := txn.(prepared := true, entry := m.value, replyLen := length.value);
    }

    /**
      The decision on a complete request: the ACK leaves exactly for the right CRC, an entry that
      answers, full authority, a deadline that fits and a port that takes it. Anything else ends the
      transaction in silence, for the first of these that fails.
      */
    twostate predicate Decided(received: byte, start: nat, env: Env, tick: nat)
      reads this`frame, this`txn, this`track, this`sends, this`closed, this`disarmed, this`bindings, this`ordinal, this`view
    {
      var right := received == Wire.LogicalCrc(Whole(old(frame)));
      var notBefore := start + config.turnaround + config.charTicks;
      if right && old(txn).prepared && old(Authorized(env.link, tick)) && notBefore <= MAX64 && env.accepts then
        && txn == old(txn).(awaitEcho := true, echoSymbol := ACK, echoNotBefore := notBefore)
        && frame == old(frame).(stage := TargetAck, escape := frame.escape) && track == old(track).(emitted := [ACK], verdict := Some(received))
        && sends == old(sends) + 1 && closed == old(closed) && disarmed == old(disarmed)
      else Ends(
        if !right then Malformed else if !old(txn).prepared then NoMatch
        else if !old(Authorized(env.link, tick)) then old(Objection(env.link, tick)) else Refused)
    }

    method Decide(received: byte, start: nat, env: Env, tick: nat)
      requires Valid() && frame.stage.AtCrc? && Serviced(env.link)
      modifies this`slots, this`view, this`world, this`ack, this`frame, this`txn, this`disarmed, this`closed, this`track, this`sends
      ensures Valid() && Sent(old(sends), env.link)
      ensures Decided(received, start, env, tick)
    {
      hide Reachable, Crc.Run, Wire.Escape, Address.IsInitiator, Live, LinkReason, Check, Serviced, Cleared, Authorized, Objection;
      assert Wire.LogicalCrc(Whole(frame)) == frame.crc by { CrcOfRequest(frame, track.raw); }
      if received != frame.crc {
        Close(Malformed);
        return;
      }
      if !txn.prepared {
        Close(NoMatch);
        return;
      }
      var reason := CheckAuthority(env, tick);
      if !reason.NoClose? {
        Close(reason);
        return;
      }
      var notBefore := start + config.turnaround + config.charTicks;
      if notBefore > MAX64 || !env.accepts {
        Close(Refused);
        return;
      }
      NoReasonMeansCleared(env.link, txn.ref);
      PutAck(received, notBefore);
    }

    method PutAck(received: byte, notBefore: nat)
      requires Valid() && frame.stage.AtCrc? && txn.prepared && received == Wire.LogicalCrc(Whole(frame))
      modifies this`frame, this`txn, this`track, this`sends
      ensures Valid() && txn == old(txn).(awaitEcho := true, echoSymbol := ACK, echoNotBefore := notBefore)
      ensures frame == old(frame).(stage := TargetAck) && track == old(track).(emitted := [ACK], verdict := Some(received))
      ensures sends == old(sends) + 1
    {
      hide Reachable, Crc.Run, Wire.Escape, Address.IsInitiator;
      frame := frame.(stage := TargetAck);
      txn := txn.(awaitEcho := true, echoSymbol := ACK, echoNotBefore := notBefore);
      track := track.(emitted := [ACK], verdict := Some(received));
      sends := sends + 1;
    }

    /** A raw symbol of the request: half an escape, a broken one, or the next logical byte. */
    twostate predicate RequestTaken(r: Received, env: Env)
      reads this`frame, this`txn, this`track, this`sends, this`closed, this`disarmed, this`bindings, this`ordinal, this`view
    {
      var f := old(frame);
      if f.escape && r.value != 0 && r.value != 1 then Ends(Malformed)
      else if !f.escape && r.value == ESC then frame == f.(escape := true, crc := frame.crc) && Untouched()
      else
        var logical := if !f.escape then r.value else if r.value == 0 then ESC else SYN;
        if f.stage.AtCrc? then Decided(logical, r.start, env, r.tick) else LogicalTaken(logical, r.tick)
    }

    /** Raw symbols of the request: the CRC first, then the logical byte they complete. */
    method ObserveRequest(r: Received, env: Env)
      requires Valid() && InRequest(frame.stage) && r.value != SYN && Serviced(env.link)
      modifies this`slots, this`view, this`world, this`ack, this`frame, this`txn, this`disarmed, this`closed, this`track, this`sends
      ensures Valid() && Sent(old(sends), env.link) && RequestTaken(r, env)
    {
      hide Reachable, Crc.Run, Crc.Step, Wire.Escape, Address.IsInitiator, Wire.EscapeOne, Check, Objection, Authorized, Decided, PlanTheorems.Answers, QueryOf, Reply, Serviced, Cleared;
      if frame.stage.AtCrc? {
        ObserveCrc(r, env);
        return;
      }
      if frame.escape && r.value != 0 && r.value != 1 {
        Close(Malformed);
        return;
      }
      var logical := SumSymbol(r.value);
      if logical.Some? { ObserveLogical(logical.value, env, r.tick); }
    }

    /** Every raw symbol of the request is summed, an escape prefix included. */
    method SumSymbol(value: byte) returns (logical: Option<byte>)
      requires Valid() && InRequest(frame.stage) && !frame.stage.AtCrc? && value != SYN
      requires frame.escape ==> value == 0 || value == 1
      modifies this`frame, this`track
      ensures logical == (if frame.escape then None else Some(if !old(frame).escape then value else if value == 0 then ESC else SYN))
      ensures frame == old(frame).(crc := frame.crc, escape := !old(frame).escape && value == ESC)
      ensures if logical.Some? then Reading26() && Extended(logical.value) else Valid()
    {
      hide Reachable, Crc.Run, Crc.Step, Wire.Escape, Address.IsInitiator, Wire.EscapeOne;
      ghost var raw, taken := track.raw, Taken(frame);
      Crc.RunSnoc(0, raw, value);
      track := track.(raw := raw + [value]);
      frame := frame.(crc := Crc.Step(frame.crc, value));
      if frame.escape {
        frame := frame.(escape := false);
        Wire.PairCompletes(taken, raw, value);
        return Some(if value == 0 then ESC else SYN);
      }
      if value == ESC {
        frame := frame.(escape := true);
        return None;
      }
      Wire.PlainCompletes(taken, raw, value);
      return Some(value);
    }

    /** The CRC symbol is not summed; it may be escaped itself. */
    method ObserveCrc(r: Received, env: Env)
      requires Valid() && frame.stage.AtCrc? && r.value != SYN && Serviced(env.link)
      modifies this`slots, this`view, this`world, this`ack, this`frame, this`txn, this`disarmed, this`closed, this`track, this`sends
      ensures Valid() && Sent(old(sends), env.link) && RequestTaken(r, env)
    {
      hide Reachable, TxnSound, Serviced, Cleared, Objection, Authorized;
      EscapeAside(world, frame, txn, track, view, held.Some?, !frame.escape);
      if frame.escape {
        if r.value != 0 && r.value != 1 {
          Close(Malformed);
          return;
        }
        frame := frame.(escape := false);
        Decide(if r.value == 0 then ESC else SYN, r.start, env, r.tick);
      } else if r.value == ESC {
        frame := frame.(escape := true);
      } else {
        Decide(r.value, r.start, env, r.tick);
      }
    }

    // ---- The response ----

    /**
      A symbol while an echo is awaited. The wrong one, or an early one, is a collision. The exact one
      finishes the reply, or lets out the next byte exactly under full authority, with a deadline that
      fits and a port that takes it.
      */
    twostate predicate Echoed(r: Received, env: Env)
      reads this`frame, this`txn, this`track, this`sends, this`closed, this`disarmed, this`bindings, this`ordinal, this`view
    {
      var f, t := old(frame), old(txn);
      var next := if f.stage.TargetAck? then 0 else t.offset + 1;
      if r.value != t.echoSymbol || r.start < t.echoNotBefore then
        && !txn.active && sends == old(sends) && closed == old(closed) + [Collision]
        && frame.stage == (if r.value == SYN then AtSource else Skip)
      else if next == t.replyLen then
        && frame == f.(stage := InitiatorAck) && txn == t.(awaitEcho := false, offset := next)
        && sends == old(sends) && closed == old(closed) && track == old(track).(echoed := old(track).emitted)
      else NextOut(next, r, env)
    }

    /** The reply's byte at this offset leaves, or the transaction ends without it. */
    twostate predicate NextOut(next: nat, r: Received, env: Env)
      reads this`frame, this`txn, this`track, this`sends, this`closed, this`disarmed, this`bindings, this`ordinal, this`view
    {
      var f, t := old(frame), old(txn);
      if !old(Authorized(env.link, r.tick)) then Ends(old(Objection(env.link, r.tick)))
      else if r.start + config.charTicks <= MAX64 && env.accepts then
        && HasPlan(old(world), t) && next < |Reply(old(world), t)|
        && var symbol := Reply(old(world), t)[next];
        && frame == f.(stage := Replying)
        && txn == t.(offset := next, echoSymbol := symbol, echoNotBefore := r.start + config.charTicks)
        && track == old(track).(emitted := old(track).emitted + [symbol], echoed := old(track).emitted)
        && sends == old(sends) + 1 && closed == old(closed)
      else Ends(Refused)
    }

    method Echo(r: Received, env: Env)
      requires Valid() && txn.active && txn.awaitEcho && Serviced(env.link)
      modifies this`slots, this`view, this`world, this`ack, this`frame, this`txn, this`disarmed, this`closed, this`track, this`sends
      ensures Valid() && Sent(old(sends), env.link) && Echoed(r, env)
    {
      hide Reachable, SumSound, Serviced, Cleared, Objection, Authorized, NextOut;
      if r.value != txn.echoSymbol || r.start < txn.echoNotBefore {
        Close(Collision);
        if r.value == SYN { StartFrame(); }
        return;
      }
      var offset := if frame.stage.TargetAck? then 0 else txn.offset + 1;
      if offset == txn.replyLen {
        FinishReply();
        return;
      }
      LetOut(offset, r, env);
    }

    method LetOut(offset: nat, r: Received, env: Env)
      requires Valid() && txn.active && txn.awaitEcho && Serviced(env.link)
      requires offset == (if frame.stage.TargetAck? then 0 else txn.offset + 1) && offset != txn.replyLen
      modifies this`slots, this`view, this`world, this`ack, this`frame, this`txn, this`disarmed, this`closed, this`track, this`sends
      ensures Valid() && Sent(old(sends), env.link) && NextOut(offset, r, env)
    {
      hide Reachable, TxnSound, Live, Symbol, LinkReason, Check, Serviced, Cleared, Objection, Authorized;
      NextInside(world, frame, txn, track, view, held.Some?);
      var reason := CheckAuthority(env, r.tick);
      if !reason.NoClose? {
        Close(reason);
        return;
      }
      ViewEffects.ReplyServedExactly(world, worker, txn.key, txn.entry, offset, PhaseResponse, At(r.tick));
      var next := Symbol(slots, view, txn.key, txn.key, txn.entry, offset, PhaseResponse, At(r.tick));
      var notBefore := r.start + config.charTicks;
      if next.None? || notBefore > MAX64 || !env.accepts {
        Close(if next.None? then Authority else Refused);
        return;
      }
      NoReasonMeansCleared(env.link, txn.ref);
      PutSymbol(next.value, offset, notBefore);
    }

    /** The whole reply has been echoed. */
    method FinishReply()
      requires Valid() && txn.active && txn.awaitEcho
      requires txn.replyLen == if frame.stage.TargetAck? then 0 else txn.offset + 1
      modifies this`frame, this`txn, this`track
      ensures Valid() && frame == old(frame).(stage := InitiatorAck) && txn == old(txn).(awaitEcho := false, offset := txn.replyLen)
      ensures track == old(track).(echoed := old(track).emitted)
    {
      hide Reachable, Crc.Run, Wire.Escape, Address.IsInitiator;
      ghost var reply := Reply(world, txn);
      assert reply[..|reply|] == reply;
      assert frame.stage.TargetAck? ==> reply == [] && [ACK] + reply == [ACK];
      txn := txn.(awaitEcho := false, offset := txn.replyLen);
      frame := frame.(stage := InitiatorAck);
      track := track.(echoed := track.emitted);
    }

    method PutSymbol(value: byte, offset: nat, notBefore: nat)
      requires Valid() && txn.active && txn.awaitEcho
      requires offset == (if frame.stage.TargetAck? then 0 else txn.offset + 1) && offset < |Reply(world, txn)| && value == Reply(world, txn)[offset]
      modifies this`frame, this`txn, this`track, this`sends
      ensures Valid() && frame == old(frame).(stage := Replying)
      ensures txn == old(txn).(offset := offset, echoSymbol := value, echoNotBefore := notBefore)
      ensures track == old(track).(emitted := old(track).emitted + [value], echoed := old(track).emitted)
      ensures sends == old(sends) + 1
    {
      hide Reachable, Crc.Run, Wire.Escape, Address.IsInitiator;
      ghost var reply := Reply(world, txn);
      assert reply[..offset + 1] == reply[..offset] + [value];
      assert reply[..0] == [];
      txn := txn.(offset := offset, echoSymbol := value, echoNotBefore := notBefore);
      frame := frame.(stage := Replying);
      track := track.(echoed := track.emitted, emitted := track.emitted + [value]);
      sends := sends + 1;
    }

    // ---- Receive events ----

    /** Admission is off until the next stream. */
    twostate predicate Gapped()
      reads this`frame, this`txn, this`track, this`sends, this`closed, this`disarmed, this`bindings, this`ordinal, this`view
    {
      !txn.active && disarmed && frame.stage.Unsynced? && sends == old(sends)
    }

    /** What a symbol means depends on the echo awaited, on SYN, and else on the stage of the frame. */
    twostate predicate SymbolTaken(r: Received, env: Env)
      reads this`frame, this`txn, this`track, this`sends, this`closed, this`disarmed, this`bindings, this`ordinal, this`view
    {
      if old(txn).active && old(txn).awaitEcho then Echoed(r, env)
      else if r.value == SYN then
        && frame.stage.AtSource? && !frame.escape && frame.crc == 0 && !txn.active && sends == old(sends)
        && closed == old(closed) + if old(txn).active then [Interrupted] else []
      else match old(frame).stage
        case Unsynced => frame == old(frame) && Untouched()
        case Skip => frame == old(frame) && Untouched()
        case AtSource => SourceTaken(r.value)
        case AtTarget => TargetTaken(r.value, env, r.tick)
        case InitiatorAck => Ends(if r.value == ACK then Completed else if r.value == NACK then InitiatorNack else Malformed)
        case TargetAck => Ends(Collision)
        case Replying => Ends(Collision)
        case _ => RequestTaken(r, env)
    }

    method TakeSymbol(r: Received, env: Env)
      requires Valid() && Serviced(env.link)
      modifies this`slots, this`view, this`world, this`ack, this`frame, this`txn, this`disarmed, this`closed, this`track, this`sends, this`ordinal, this`held
      ensures Valid() && Sent(old(sends), env.link) && SymbolTaken(r, env)
    {
      hide Reachable, Serviced, Cleared, Echoed, TargetTaken, RequestTaken, SumSound, OutputSound, EntryChosen, VerdictSound, Linked;
      if txn.active && txn.awaitEcho {
        Echo(r, env);
        return;
      }
      if r.value == SYN {
        if txn.active { Close(Interrupted); }
        StartFrame();
        return;
      }
      match frame.stage {
        case Unsynced =>
        case Skip =>
        case AtSource => ObserveSource(r.value);
        case AtTarget => ObserveTarget(r.value, env, r.tick);
        case InitiatorAck => Close(if r.value == ACK then Completed else if r.value == NACK then InitiatorNack else Malformed);
        case TargetAck => Close(Collision);
        case Replying => Close(Collision);
        case _ => ObserveRequest(r, env);
      }
    }

    /**
      One raw symbol from the wire engine, handled exactly as its stage says unless the clock went
      back or the sequence is used up. At most one response symbol leaves, and none does after a stop,
      or a revocation of its plan, that was on the link when this event's drain began.
      */
    method RawSymbol(r: Received, env: Env)
      requires Valid() && Serviced(env.link)
      modifies this
      ensures Valid() && Sent(old(sends), env.link)
      ensures r.tick < old(lastTick) || r.start > r.tick || old(nextSequence) == MAX64 ==> Gapped()
      ensures r.start <= r.tick && old(lastTick) <= r.tick && old(nextSequence) != MAX64 ==> SymbolTaken(r, env)
      ensures r.start <= r.tick && old(lastTick) <= r.tick ==> lastTick == lastRaw == r.tick
      ensures r.start > r.tick || r.tick < old(lastTick) ==> lastTick == old(lastTick) && lastRaw == old(lastRaw)
    {
      hide Reachable, TxnSound, Serviced, Cleared, Linked, SymbolTaken;
      if r.tick < lastTick || r.start > r.tick {
        RaiseGap(ClockFault);
        return;
      }
      if nextSequence == MAX64 {
        RaiseGap(GapSeen);
      } else {
        TakeSymbol(r, env);
        nextSequence := nextSequence + 1;
      }
      lastTick, lastRaw := r.tick, r.tick;
    }

    /** A framing fault closes the transaction and waits for a SYN. */
    method FramingFault()
      requires Valid()
      modifies this
      ensures Valid() && !txn.active && frame.stage.Unsynced? && sends == old(sends) && disarmed == old(disarmed)
      ensures closed == old(closed) + if old(txn).active then [Framing] else []
    {
      hide Reachable;
      Close(Framing);
      frame := frame.(stage := Unsynced);
    }

    /** Why the active transaction cannot go on at this tick, if it cannot. */
    ghost function Overdue(link: Link.System, tick: nat): ResponderState.Reason
      reads this
    {
      if txn.awaitEcho then
        var deadline := txn.echoNotBefore + config.charTicks + config.echoAllowance;
        if deadline <= MAX64 && tick >= deadline then Collision else Objection(link, tick)
      else if tick - lastRaw >= config.idleClose then IdleBus
      else Objection(link, tick)
    }

    /**
      Bounded housekeeping: a lapsed hold goes; the transaction ends exactly for a missing echo, an
      idle bus or lost authority, and otherwise goes on untouched.
      */
    method Poll(tick: nat, env: Env)
      requires Valid()
      modifies this
      ensures Valid() && sends == old(sends)
      ensures tick < old(lastTick) ==> Gapped() && lastTick == old(lastTick)
      ensures tick >= old(lastTick) ==> lastTick == tick
      ensures tick >= old(lastTick) ==>
                held == (if old(held).Some? && old(held).value.Live(tick) then old(held) else None)
      ensures tick >= old(lastTick) && old(txn).active && !old(Overdue(env.link, tick)).NoClose? ==> Ends(old(Overdue(env.link, tick)))
      ensures tick >= old(lastTick) && (!old(txn).active || old(Overdue(env.link, tick)).NoClose?) ==>
                Untouched() && frame == old(frame)
    {
      hide Reachable, SumSound, OutputSound, EntryChosen, VerdictSound, LinkReason, Check, Objection, Authorized;
      if tick < lastTick {
        RaiseGap(ClockFault);
        return;
      }
      lastTick := tick;
      if held.Some? && !held.value.Live(tick) { held := None; }
      if !txn.active { return; }
      if txn.awaitEcho {
        var deadline := txn.echoNotBefore + config.charTicks + config.echoAllowance;
        if deadline <= MAX64 && tick >= deadline {
          Close(Collision);
          return;
        }
      } else if tick - lastRaw >= config.idleClose {
        Close(IdleBus);
        return;
      }
      var reason := CheckAuthority(env, tick);
      if !reason.NoClose? { Close(reason); }
    }

    // ---- Initiator hold ----

    /**
      A local command takes the wire only while no transaction and no other command holds it, and
      only as the command the link admitted, with no stop or revocation of its plan before the drain.
      */
    method StartInitiator(command: LinkLedger.Command, initiator: byte, tick: nat, env: Env) returns (ok: bool)
      requires Valid() && Serviced(env.link)
      modifies this`held, this`lastTick
      ensures Valid()
      ensures ok <==>
        && tick >= old(lastTick) && Address.IsInitiator(initiator) && !txn.active && old(held).None?
        && env.link.worker.fence == Link.Open && Link.PlanUsable(env.link.worker, command.ref)
        && env.link.worker.active == Some(command) && command.Live(tick) && env.accepts
      ensures ok ==> held == Some(command) && Cleared(env.link, command.ref)
      ensures var snapshot := env.link.worker.pc.snapshot;
        ok ==> Link.AdmitSymbol(env.link, command, snapshot, tick).log == env.link.log + [Link.Admission(command, snapshot)]
      ensures !ok ==> held == old(held)
    {
      hide Reachable, LinkSafety.Reachable;
      if tick < lastTick || !Address.IsInitiator(initiator) || txn.active || held.Some? { return false; }
      if !AdmitsOutput(env.link.worker, command, tick) { return false; }
      UsableMeansCleared(env.link, command.ref);
      lastTick := tick;
      if !env.accepts { return false; }
      held := Some(command);
      return true;
    }

    method EndInitiator(command: LinkLedger.Command) returns (ok: bool)
      requires Valid()
      modifies this`held
      ensures Valid() && ok == (old(held) == Some(command)) && held == if ok then None else old(held)
    {
      hide Reachable;
      if held != Some(command) { return false; }
      held := None;
      return true;
    }

    // ---- Plans ----

    /** One publication and the link's reference to it must agree in every field before any effect. */
    method AdoptPlan(n: Notice, ref: Ref, tick: nat) returns (ok: bool, made: Option<Notice>)
      requires Valid()
      modifies this`view, this`world, this`bindings, this`lastTick
      ensures Valid() && txn == old(txn)
      ensures ok <==>
        && tick >= old(lastTick) && ref == Ref(n.identity.key, n.identity.worker, n.identity.stream, n.identity.plan, ref.expiry)
        && ViewEffects.ClockTakes(old(view).clock, At(tick)) && ViewEffects.Offered(slots, old(view), n, At(tick))
        && slots[n.slot.index].validity.planExpiry == ref.expiry
        && n.identity.plan > Top(old(view), n.identity.key.address)
      ensures ok ==> bindings == old(bindings)[n.identity.key.address := Binding(n.identity, LinkName(ref))]
      ensures !ok ==> bindings == old(bindings) && made.None?
    {
      hide Reachable, SumSound, OutputSound, EntryChosen;
      if tick < lastTick || ref != Ref(n.identity.key, n.identity.worker, n.identity.stream, n.identity.plan, ref.expiry) ||
         !Resolves(slots, n.slot) || slots[n.slot.index].validity.planExpiry != ref.expiry {
        return false, None;
      }
      var now := At(tick);
      ViewEffects.ClockTakesExactly(view.clock, now);
      ok := !view.clock.Observe(now).closed && Adoptable(slots, view, n, now);
      PlansKept(world, Adopts(worker, n, now), frame, txn, track);
      PlanTheorems.ReachableOn(world, Adopts(worker, n, now));
      world := Next(world, Adopts(worker, n, now));
      var (v, a) := Adopt(slots, view, n, now);
      view, made := v, a;
      if ok {
        lastTick := tick;
        bindings := bindings[n.identity.key.address := Binding(n.identity, LinkName(ref))];
      }
    }

    method NoteRevocation(n: Revocation) returns (made: Option<Notice>)
      requires Valid()
      modifies this`view, this`world
      ensures Valid()
    {
      hide Reachable, SumSound, OutputSound, EntryChosen;
      PlansKept(world, Observes(worker, n), frame, txn, track);
      PlanTheorems.ReachableOn(world, Observes(worker, n));
      world := Next(world, Observes(worker, n));
      var (v, a) := ObserveRevocation(slots, view, n);
      view, made := v, a;
    }

    /** A supersession leaves a selected transaction on its plan; any other reason closes it now. */
    method Revoke(n: Revocation) returns (made: Option<Notice>)
      requires Valid()
      modifies this
      ensures Valid() && sends == old(sends)
      ensures Heeded(old(slots), old(view), n) && n.reason != Superseded && old(txn).active && old(txn).key.identity == n.identity ==> !txn.active
      ensures Heeded(old(slots), old(view), n) && n.reason != Superseded && old(txn).active && old(txn).key.identity == n.identity ==>
                Ends(if n.reason == Expired then ExpiredPlan else RevokedPlan)
      ensures !(Heeded(old(slots), old(view), n) && n.reason != Superseded && old(txn).key.identity == n.identity) ==>
                txn == old(txn) && frame == old(frame) && closed == old(closed)
      ensures var a := n.identity.key.address;
              bindings == (if Heeded(old(slots), old(view), n) && a in old(bindings) && old(bindings)[a].identity == n.identity
                           then old(bindings) - {a} else old(bindings))
    {
      hide Reachable, TxnSound, Heeded;
      var heeded := Heeded(slots, view, n);
      made := NoteRevocation(n);
      if !heeded { return; }
      var address := n.identity.key.address;
      if address in bindings && bindings[address].identity == n.identity { bindings := bindings - {address}; }
      if txn.active && n.reason != Superseded && txn.key.identity == n.identity {
        Close(if n.reason == Expired then ExpiredPlan else RevokedPlan);
        made, ack := ack, None;
      }
    }

    /** A new stream: the transaction closes, every binding is dropped and admission re-arms. */
    method AdvanceTo(stream: nat, belongs: bool) returns (ok: bool)
      requires Valid()
      modifies this
      ensures Valid() && sends == old(sends) && ok == (belongs && stream > old(view).stream)
      ensures ok ==> !txn.active && held.None? && bindings == map[] && !disarmed && view.stream == stream
      ensures ok ==> ordinal == 0 && frame.stage.Unsynced? && closed == old(closed) + if old(txn).active then [StreamEnded] else []
      ensures !ok ==> Untouched() && frame == old(frame) && held == old(held) && view == old(view)
    {
      hide Reachable, Crc.Run, Wire.Escape;
      if !belongs || stream <= view.stream { return false; }
      Close(StreamEnded);
      MoveView(stream);
      bindings, ordinal, disarmed, held := map[], 0, false, None;
      frame := frame.(stage := Unsynced, escape := false);
      return true;
    }

    method MoveView(stream: nat)
      requires Valid() && !txn.active && stream > view.stream && !Selected(frame.stage)
      modifies this`slots, this`view, this`world
      ensures Valid() && view.stream == stream && world.history == old(world).history
    {
      hide Reachable;
      PlansKept(world, Advances(worker, stream), frame, txn, track);
      PlanTheorems.ReachableOn(world, Advances(worker, stream));
      world := Next(world, Advances(worker, stream));
      var (pool, v) := AdvanceStream(slots, view, stream);
      slots, view := pool, v;
    }

    // ---- What the invariant means ----

    /** The symbols on the wire are a prefix of the ACK and the prepared reply of the chosen entry. */
    lemma EmittedIsPrefix()
      requires Valid() && txn.active && track.emitted != []
      ensures HasPlan(world, txn)
      ensures track.emitted <= [ACK] + Reply(world, txn)
      ensures track.echoed <= track.emitted && |track.emitted| <= |track.echoed| + 1
      ensures track.verdict == Some(Wire.LogicalCrc(Whole(frame)))
      ensures PlanTheorems.Answers(world.history.prepared[txn.key.identity].candidate.entries[txn.entry], QueryOf(frame))
    {
      hide Reachable, SumSound;
      var reply := Reply(world, txn);
      if frame.stage.Replying? {
        assert [ACK] + reply[..txn.offset + 1] <= [ACK] + reply;
      }
    }

    /** A transaction is active exactly when the view holds its pin, and never beside an initiator hold. */
    lemma ActiveIsPinned()
      requires Valid()
      ensures txn.active <==> view.pin.Some?
      ensures txn.active ==> view.pin.value.key == txn.key && held.None?
    {
    }
  }

  /** The sum after the source. */
  lemma SourceRead(f: Frame, raw: seq<byte>, value: byte)
    requires SumSound(f, raw) && f.stage.AtSource? && Address.IsInitiator(value)
    ensures SumSound(f.(source := value, crc := Crc.Step(f.crc, value), stage := AtTarget), raw + [value])
  {
    hide Crc.Step, Address.IsInitiator;
    Crc.RunSnoc(0, raw, value);
    AddressesUnescaped(value);
    Wire.EscapeSnoc([], value);
    assert [] + [value] == [value] && Wire.Escape([]) == [];
  }

  lemma SourceSkipped(f: Frame, raw: seq<byte>)
    requires SumSound(f, raw) && f.stage.AtSource?
    ensures SumSound(f.(stage := Skip), raw)
  {
  }

  /** Once the request is complete, half an escape of its CRC changes nothing that was read. */
  lemma EscapeAside(w: World, f: Frame, t: Txn, k: Track, v: View, held: bool, escape: bool)
    requires TxnSound(w, f, t, k, v, held) && f.stage.AtCrc?
    ensures TxnSound(w, f.(escape := escape), t, k, v, held) && t.active
  {
    hide Crc.Run, Wire.Escape, Address.IsInitiator;
  }

  /** While bytes of the reply remain, the offset of the next one is inside it. */
  lemma NextInside(w: World, f: Frame, t: Txn, k: Track, v: View, held: bool)
    requires TxnSound(w, f, t, k, v, held) && t.awaitEcho
    ensures HasPlan(w, t) && t.replyLen == |Reply(w, t)|
    ensures var next := if f.stage.TargetAck? then 0 else t.offset + 1;
            next <= |Reply(w, t)|
  {
    hide SumSound;
  }

  /** The sum after the destination, whether the frame goes on or is skipped. */
  lemma TargetRead(f: Frame, raw: seq<byte>, value: byte)
    requires SumSound(f, raw) && f.stage.AtTarget?
    ensures var g := f.(crc := Crc.Step(f.crc, value), target := value);
      && SumSound(g.(stage := Skip), raw + [value])
      && (Address.IsTarget(value) ==> SumSound(g.(stage := AtPB), raw + [value]))
  {
    hide Crc.Step, Crc.Run, Wire.Escape, Address.IsInitiator, Address.IsTarget;
    Crc.RunSnoc(0, raw, value);
    Wire.EscapeSnoc([f.source], value);
    assert [f.source] + [value] == [f.source, value];
    if Address.IsTarget(value) { AddressesUnescaped(value); }
  }

  lemma CrcOfRequest(f: Frame, raw: seq<byte>)
    requires SumSound(f, raw) && f.stage.AtCrc?
    ensures Wire.LogicalCrc(Whole(f)) == Crc.Run(0, raw)
  {
    assert Wire.Escape(Taken(f)) + [] == Wire.Escape(Taken(f));
  }

  lemma SourceIsInitiator(f: Frame, raw: seq<byte>)
    requires SumSound(f, raw) && f.stage.AtCrc?
    ensures Address.IsInitiator(f.source)
  {
  }

  lemma NothingPinned(w: World, f: Frame, t: Txn, k: Track, v: View, held: bool)
    requires TxnSound(w, f, t, k, v, held) && !t.active
    ensures v.pin.None? && t == NO_TXN
  {
  }

  lemma ClockIdempotent(c: Clock, now: Reading)
    ensures c.Observe(now).Observe(now).closed == c.Observe(now).closed
  {
  }

  /** What a transaction says about its plan survives every step of the world. */
  lemma PlansKept(w: World, a: Action, f: Frame, t: Txn, k: Track)
    requires Reachable(w) && Enabled(w, a) && EntryChosen(w, f, t) && OutputSound(w, f, t, k)
    ensures EntryChosen(Next(w, a), f, t) && OutputSound(Next(w, a), f, t, k)
  {
    hide Reachable, Next;
    if t.key.identity in w.history.prepared { PlanTheorems.PlansStay(w, a, t.key.identity); }
  }
}
