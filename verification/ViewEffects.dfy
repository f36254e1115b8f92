/** Which plan a worker adopts, selects, drops and acknowledges, and exactly when. */
module ViewEffects {
  import opened Octets
  import opened Registry
  import opened WorkerView
  import opened RegistrySafety
  import opened PlanSafety
  import opened PlanTheorems
  import opened Overlap

  /** A clock reading is taken: known domain, the same as before, and not earlier. */
  predicate ClockTakes(c: Clock, now: Reading) {
    !c.closed && now.domain != 0 && (c.started ==> now.domain == c.domain && c.last <= now.tick)
  }

  lemma ClockTakesExactly(c: Clock, now: Reading)
    ensures ClockTakes(c, now) <==> !c.Observe(now).closed
    ensures ClockTakes(c, now) ==> c.Observe(now) == Clock(true, false, now.domain, now.tick)
  {
  }

  /** Published under the notice's identity, for this worker and stream, and its deadlines ahead. */
  ghost predicate Offered(slots: seq<Slot>, v: View, n: Notice, now: Reading) {
    && n.slot.index < |slots|
    && var s := slots[n.slot.index];
    && s.incarnation == n.slot.incarnation && s.state == Published && s.identity == n.identity
    && s.identity.worker == v.worker && s.identity.stream == v.stream
    && s.validity.domain == now.domain
    && now.tick < s.validity.planExpiry && now.tick < s.validity.registrationExpiry && now.tick < s.validity.sourceExpiry
  }

  /**
    A view adopts a plan exactly when it is offered, its clock takes the reading and the plan is newer
    than any adopted for the address. The plan it replaces is noted as superseded, and acknowledged at
    once exactly when the view does not hold it.
    */
  lemma AdoptedExactly(slots: seq<Slot>, v: View, n: Notice, now: Reading)
    ensures var (t, ack) := Adopt(slots, v, n, now);
      var a := n.identity.key.address;
      var taken := ClockTakes(v.clock, now) && Offered(slots, v, n, now)
        && (a in v.planTop ==> n.identity.plan > v.planTop[a]) && n.identity.plan > 0;
      var replaced := taken && a in v.current && Resolves(slots, v.current[a]);
      && t.clock == v.clock.Observe(now) && t.pin == v.pin && t.transactionTop == v.transactionTop
      && t.current == (if taken then v.current[a := n.slot] else v.current)
      && t.planTop == (if taken then v.planTop[a := n.identity.plan] else v.planTop)
      && (!replaced ==> t.notes == v.notes && ack == None)
      && (replaced ==> NoteOf(t, v.current[a]) == NoteOf(v, v.current[a]).(superseded := true))
      && (replaced ==>
            (ack == Some(Notice(v.current[a], slots[v.current[a].index].identity)) <==> !HoldsPin(v, v.current[a]))
            && (ack == None <==> HoldsPin(v, v.current[a])))
  {
    ClockTakesExactly(v.clock, now);
  }

  /** The notice names a plan that was really withdrawn, of this worker. */
  ghost predicate Withdraws(slots: seq<Slot>, v: View, n: Revocation) {
    && n.slot.index < |slots| && slots[n.slot.index].incarnation == n.slot.incarnation
    && slots[n.slot.index].state == Retained && slots[n.slot.index].identity == n.identity
    && n.identity.worker == v.worker && n.identity.stream <= v.stream
  }

  /**
    A withdrawal notice is heeded exactly when it is true: the plan is no longer current for its
    address, its note says superseded or revoked as the notice does, and it is acknowledged at once
    exactly when the view does not hold it. A false notice changes nothing.
    */
  lemma WithdrawalHeededExactly(slots: seq<Slot>, v: View, n: Revocation)
    ensures var (t, ack) := ObserveRevocation(slots, v, n);
      var a := n.identity.key.address;
      && (!Withdraws(slots, v, n) ==> t == v && ack == None)
      && (Withdraws(slots, v, n) ==>
            && t == v.(notes := t.notes, current := t.current)
            && t.current == (if a in v.current && v.current[a] == n.slot then v.current - {a} else v.current)
            && NoteOf(t, n.slot).superseded == (NoteOf(v, n.slot).superseded || n.reason == Superseded)
            && NoteOf(t, n.slot).revoked == (NoteOf(v, n.slot).revoked || n.reason != Superseded)
            && ack == (if v.pin.Some? && v.pin.value.slot == n.slot then None else Some(Notice(n.slot, n.identity))))
  {
  }

  /**
    Selection pins the address's current plan exactly when the transaction ordinal is new, nothing is
    pinned, and the plan's slot still holds it with all deadlines ahead. The ordinal is used up
    whenever the clock takes the reading.
    */
  lemma SelectedExactly(slots: seq<Slot>, v: View, address: byte, transaction: nat, now: Reading)
    ensures var (b, t) := Select(slots, v, address, transaction, now);
      var numbered := ClockTakes(v.clock, now) && transaction > v.transactionTop;
      var free := numbered && v.pin.None? && address in v.current && Resolves(slots, v.current[address]);
      var pins := free && Held(slots[v.current[address].index]) && slots[v.current[address].index].validity.Holds(now);
      && t.transactionTop == (if numbered then transaction else v.transactionTop)
      && t == v.(clock := v.clock.Observe(now), transactionTop := t.transactionTop, pin := t.pin)
      && (pins ==>
            var ref := v.current[address];
            && t.pin == Some(Pin(WireKey(slots[ref.index].identity, transaction), ref))
            && b == slots[ref.index := slots[ref.index].(pinned := true)])
      && (!pins ==> t.pin == v.pin && b == slots)
  {
    ClockTakesExactly(v.clock, now);
  }

  /** A newer stream drops the pin and every current plan; an older one is ignored. */
  lemma AdvancedExactly(slots: seq<Slot>, v: View, stream: nat, k: nat)
    requires k < |slots|
    ensures var (b, t) := AdvanceStream(slots, v, stream);
      && |b| == |slots|
      && (stream <= v.stream ==> b == slots && t == v)
      && (stream > v.stream ==>
            && t == v.(stream := stream, transactionTop := 0, current := map[], pin := None)
            && b[k] == (if v.pin.Some? && v.pin.value.slot == SlotRef(k, slots[k].incarnation)
                        then slots[k].(pinned := false) else slots[k]))
  {
  }

  /** A retirement of this slot reached the view. */
  predicate Noted(v: View, ref: SlotRef) {
    NoteOf(v, ref).superseded || NoteOf(v, ref).revoked
  }

  /**
    Release with the pin's key drops the pin and unpins its slot, and acknowledges exactly when a
    retirement of the slot was noted meanwhile; another key changes nothing.
    */
  lemma ReleasedExactly(slots: seq<Slot>, v: View, key: WireKey)
    ensures var (b, t, ack) := ReleasePin(slots, v, key);
      var mine := v.pin.Some? && v.pin.value.key == key;
      && (!mine ==> b == slots && t == v && ack == None)
      && (mine ==>
            var ref := v.pin.value.slot;
            && t.pin == None && t.current == v.current
            && (Noted(v, ref) ==> ack == Some(Notice(ref, key.identity)))
            && (!Noted(v, ref) ==> ack == None)
            && b == (if Resolves(slots, ref) then slots[ref.index := slots[ref.index].(pinned := false)] else slots))
  {
  }

  // ---- A noted retirement is not forgotten while the slot is pinned ----

  ghost predicate PinnedAndNoted(w: World, worker: nat, pin: Pin) {
    worker in w.views && w.views[worker].pin == Some(pin) && Noted(w.views[worker], pin.slot)
  }

  /** Unless the pin goes, the note stays. */
  lemma NoteSurvives(w: World, a: Action, worker: nat, pin: Pin)
    requires WorldInv(w) && Enabled(w, a) && PinnedAndNoted(w, worker, pin)
    requires worker in Next(w, a).views && Next(w, a).views[worker].pin == Some(pin)
    ensures PinnedAndNoted(Next(w, a), worker, pin)
  {
    hide Inv, ObservationsSound, AcksSound, ViewSound, Apply, Remember, ObserveAck, Terminate, Selectable, Unpin, Adopt, ObserveRevocation;
    var v := w.views[worker];
    PinResolves(w, worker);
    assert forall k :: k in w.views ==> w.views[k].worker == k;
    match a
    case Adopts(_, n, now) => AdoptKeepsNote(w.reg.slots, v, n, now, pin.slot); AdoptName(w.reg.slots, w.views[a.worker], n, now);
    case Observes(_, n) => ObserveKeepsNote(w.reg.slots, v, n, pin.slot); ObserveName(w.reg.slots, w.views[a.worker], n);
    case _ =>
  }

  lemma PinResolves(w: World, worker: nat)
    requires WorldInv(w) && worker in w.views && w.views[worker].pin.Some?
    ensures Resolves(w.reg.slots, w.views[worker].pin.value.slot)
  {
    hide Inv, ObservationsSound, AcksSound;
    assert ViewSound(w.reg.slots, w.views[worker]);
  }

  lemma AdoptKeepsNote(slots: seq<Slot>, v: View, n: Notice, now: Reading, ref: SlotRef)
    requires Resolves(slots, ref) && Noted(v, ref)
    ensures Noted(Adopt(slots, v, n, now).0, ref)
  {
  }

  lemma ObserveKeepsNote(slots: seq<Slot>, v: View, n: Revocation, ref: SlotRef)
    requires Resolves(slots, ref) && Noted(v, ref)
    ensures Noted(ObserveRevocation(slots, v, n).0, ref)
  {
  }

  lemma AdoptName(slots: seq<Slot>, v: View, n: Notice, now: Reading)
    ensures Adopt(slots, v, n, now).0.worker == v.worker
  {
  }

  lemma ObserveName(slots: seq<Slot>, v: View, n: Revocation)
    ensures ObserveRevocation(slots, v, n).0.worker == v.worker
  {
  }

  ghost predicate HeldThroughout(w: World, trace: seq<Action>, worker: nat, pin: Pin)
    decreases trace
  {
    && worker in w.views && w.views[worker].pin == Some(pin)
    && (trace == [] || (Enabled(w, trace[0]) && HeldThroughout(Next(w, trace[0]), trace[1..], worker, pin)))
  }

  lemma {:induction false} NoteSurvivesRun(w: World, trace: seq<Action>, end: World, worker: nat, pin: Pin)
    requires WorldInv(w) && Run(w, trace, end)
    requires PinnedAndNoted(w, worker, pin) && HeldThroughout(w, trace, worker, pin)
    ensures PinnedAndNoted(end, worker, pin)
    decreases trace
  {
    hide WorldInv, Next, Noted;
    if trace != [] {
      StepSound(w, trace[0]);
      assert HeldThroughout(Next(w, trace[0]), trace[1..], worker, pin);
      NoteSurvives(w, trace[0], worker, pin);
      NoteSurvivesRun(Next(w, trace[0]), trace[1..], end, worker, pin);
    }
  }

  /**
    Whatever happens in between, a retirement noted while a transaction holds the slot is acknowledged
    when the transaction lets it go; and a release acknowledges nothing that was not noted.
    */
  lemma NotedIsAcknowledged(w: World, trace: seq<Action>, end: World, worker: nat, pin: Pin)
    requires Reachable(w) && Run(w, trace, end) && HeldThroughout(w, trace, worker, pin)
    requires Noted(w.views[worker], pin.slot)
    ensures PinnedAndNoted(end, worker, pin)
    ensures var t := Next(end, Releases(worker, pin.key));
      t.acks == end.acks + {Notice(pin.slot, pin.key.identity)} && t.views[worker].pin == None
  {
    hide Reachable, Noted, WorldInv, Run, Next;
    ReachableSound(w);
    NamedStart(w, trace, worker, pin);
    NoteSurvivesRun(w, trace, end, worker, pin);
    RunKeepsNames(w, trace, end);
    ReleaseAcknowledges(end, worker, pin);
  }

  lemma NamedStart(w: World, trace: seq<Action>, worker: nat, pin: Pin)
    requires HeldThroughout(w, trace, worker, pin) && Noted(w.views[worker], pin.slot)
    ensures PinnedAndNoted(w, worker, pin)
  {
    hide Next;
  }

  lemma ReleaseAcknowledges(w: World, worker: nat, pin: Pin)
    requires PinnedAndNoted(w, worker, pin) && w.views[worker].worker == worker
    ensures var t := Next(w, Releases(worker, pin.key));
      t.acks == w.acks + {Notice(pin.slot, pin.key.identity)} && t.views[worker].pin == None
  {
    hide Noted, ReleasePin;
    var v := w.views[worker];
    ReleasedExactly(w.reg.slots, v, pin.key);
    ReleaseWorker(w.reg.slots, v, pin.key);
  }

  lemma RunKeepsNames(w: World, trace: seq<Action>, end: World)
    requires WorldInv(w) && Run(w, trace, end)
    ensures forall k :: k in end.views ==> end.views[k].worker == k
  {
    hide Inv, ObservationsSound, AcksSound, Run;
    RunSound(w, trace, end);
  }

  /** A worker's pin answers exactly under these conditions. */
  lemma PinLiveExactly(w: World, worker: nat, pinKey: WireKey, claimed: WireKey, now: Reading)
    requires Reachable(w) && worker in w.views
    ensures var v := w.views[worker];
      Live(w.reg.slots, v, pinKey, claimed, now) <==>
        && v.pin.Some? && v.pin.value.key == pinKey == claimed && pinKey.identity in w.history.prepared
        && ClockTakes(v.clock, now) && !NoteOf(v, v.pin.value.slot).revoked
        && var frozen := w.history.prepared[pinKey.identity].validity;
           now.domain == frozen.domain && now.tick < frozen.planExpiry && now.tick < frozen.registrationExpiry && now.tick < frozen.sourceExpiry
  {
    hide Reachable, KeysSound, PairsSound, ObservationsSound, AcksSound, TableSound;
    ReachableSound(w);
    ClockTakesExactly(w.views[worker].clock, now);
    assert ViewSound(w.reg.slots, w.views[worker]) && PinSound(w.reg.slots, w.views[worker]);
  }

  /** The live pin's reply is given out in full: each byte of each prepared reply, and nothing beyond. */
  lemma ReplyServedExactly(w: World, worker: nat, pinKey: WireKey, entry: nat, offset: nat, phase: Phase, now: Reading)
    requires Reachable(w) && worker in w.views && Live(w.reg.slots, w.views[worker], pinKey, pinKey, now)
    ensures pinKey.identity in w.history.prepared
    ensures var entries := w.history.prepared[pinKey.identity].candidate.entries;
      Symbol(w.reg.slots, w.views[worker], pinKey, pinKey, entry, offset, phase, now) ==
        if entry < |entries| && phase == PhaseResponse && offset < |entries[entry].response|
        then Some(entries[entry].response[offset]) else None
  {
    hide Inv, Carries, NoteOf, ViewsSound, AcksSound, ObservationsSound, EntryGood;
    ReachableSound(w);
    LivePinCarries(w, worker, pinKey, pinKey, now);
    PreparedFacts(w, pinKey.identity);
    var s := w.reg.slots[w.views[worker].pin.value.slot.index];
    var plan := w.history.prepared[pinKey.identity];
    CarriedLength(s, plan);
    if entry < |plan.candidate.entries| {
      CarriedEntry(s, plan, entry);
      GoodPhase(plan.candidate.entries[entry], pinKey.identity.key.address);
      var st := s.entries[entry];
      assert offset < st.replyLen ==> s.bytes[st.replyStart + offset] == s.bytes[st.replyStart..st.replyStart + st.replyLen][offset];
    }
  }

  lemma GoodPhase(e: Entry, address: byte)
    requires EntryGood(e, address)
    ensures e.phase == PhaseResponse
  {
  }
}
