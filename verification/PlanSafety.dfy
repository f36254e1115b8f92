/**
  Registry, pool and worker views together, in every interleaving of host and worker steps. Notices
  reach a worker in any order, late, twice or forged: a view believes only the pool. An
  acknowledgement reaches the host only if some view made it.
  */
module PlanSafety {
  import opened Octets
  import opened Overlap
  import opened Registry
  import opened WorkerView
  import opened RegistrySafety

  /**
    born: workers that ever had a view; acks: acknowledgements made so far; observed: the slots for
    which each worker observed a revocation other than a supersession.
    */
  datatype World = World(
    reg: Registry, history: History, views: map<nat, View>, born: set<nat>, acks: set<Notice>, observed: set<(nat, SlotRef)>)

  datatype Action =
    | Host(op: Op)
    | Acknowledged(ack: Notice)
    | Ended(worker: nat)
    | Born(worker: nat, stream: nat)
    | Adopts(worker: nat, notice: Notice, now: Reading)
    | Observes(worker: nat, revocation: Revocation)
    | Advances(worker: nat, stream: nat)
    | Chooses(worker: nat, address: byte, transaction: nat, now: Reading)
    | Consults(worker: nat, now: Reading)
    | Releases(worker: nat, key: WireKey)

  predicate Enabled(w: World, a: Action) {
    match a
    case Host(_) => true
    case Acknowledged(ack) => ack in w.acks
    case Ended(_) => true
    case Born(worker, _) => worker !in w.born
    case Adopts(worker, _, _) => worker in w.views
    case Observes(worker, _) => worker in w.views
    case Advances(worker, _) => worker in w.views
    case Chooses(worker, _, _, _) => worker in w.views
    case Consults(worker, _) => worker in w.views
    case Releases(worker, _) => worker in w.views
  }

  function Made(ack: Option<Notice>): set<Notice> {
    match ack case None => {} case Some(a) => {a}
  }

  function WithView(w: World, slots: seq<Slot>, v: View, ack: Option<Notice>): World {
    w.(reg := w.reg.(slots := slots), views := w.views[v.worker := v], acks := w.acks + Made(ack))
  }

  ghost function Next(w: World, a: Action): World
    requires Enabled(w, a)
  {
    var slots := w.reg.slots;
    match a
    case Host(op) => w.(reg := Apply(w.reg, op), history := Remember(w.reg, w.history, op))
    case Acknowledged(ack) => w.(reg := ObserveAck(w.reg, ack))
    case Ended(worker) => w.(reg := Terminate(w.reg, worker), views := w.views - {worker}, born := w.born + {worker})
    case Born(worker, stream) =>
      w.(views := w.views[worker := NewView(worker, stream)], born := w.born + {worker})
    case Adopts(worker, n, now) =>
      var (v, ack) := Adopt(slots, w.views[worker], n, now); WithView(w, slots, v, ack)
    case Observes(worker, n) =>
      var (v, ack) := ObserveRevocation(slots, w.views[worker], n);
      var seen := if Heeded(slots, w.views[worker], n) && n.reason != Superseded then {(worker, n.slot)} else {};
      WithView(w, slots, v, ack).(observed := w.observed + seen)
    case Advances(worker, stream) =>
      var (s, v) := AdvanceStream(slots, w.views[worker], stream); WithView(w, s, v, None)
    case Chooses(worker, address, transaction, now) =>
      var (s, v) := Select(slots, w.views[worker], address, transaction, now); WithView(w, s, v, None)
    case Consults(worker, now) =>
      WithView(w, slots, w.views[worker].(clock := w.views[worker].clock.Observe(now)), None)
    case Releases(worker, key) =>
      var (s, v, ack) := ReleasePin(slots, w.views[worker], key); WithView(w, s, v, ack)
  }

  // ---- The invariant ----

  ghost predicate PinSound(slots: seq<Slot>, v: View) {
    v.pin.Some? ==>
      var ref := v.pin.value.slot;
      Resolves(slots, ref) && Held(slots[ref.index]) && slots[ref.index].pinned &&
      slots[ref.index].identity == v.pin.value.key.identity && slots[ref.index].identity.worker == v.worker
  }

  ghost predicate CurrentSound(slots: seq<Slot>, v: View, address: byte)
    requires address in v.current
  {
    var ref := v.current[address];
    && Resolves(slots, ref) && Held(slots[ref.index])
    && slots[ref.index].identity.key.address == address && slots[ref.index].identity.worker == v.worker
    && slots[ref.index].identity.plan <= Top(v, address)
  }

  predicate Withdrawn(s: Slot) {
    s.state == Retained || s.state == Reclaimable
  }

  ghost predicate NoCurrent(v: View, ref: SlotRef) {
    forall a :: a in v.current ==> v.current[a] != ref
  }

  /** A retirement a view noted is real, and the slot is no longer selectable. */
  ghost predicate NoteSound(slots: seq<Slot>, v: View, i: nat)
    requires i in v.notes
  {
    var n := v.notes[i];
    && i < |slots| && n.incarnation <= slots[i].incarnation
    && (n.incarnation == slots[i].incarnation && (n.superseded || n.revoked) ==>
          Withdrawn(slots[i]) && NoCurrent(v, SlotRef(i, n.incarnation)))
  }

  ghost predicate ViewSound(slots: seq<Slot>, v: View) {
    && PinSound(slots, v)
    && (forall a :: a in v.current ==> CurrentSound(slots, v, a))
    && (forall i :: i in v.notes ==> NoteSound(slots, v, i))
  }

  ghost predicate ObservedSound(slots: seq<Slot>, v: View, ref: SlotRef) {
    && ref.index < |slots| && ref.incarnation <= slots[ref.index].incarnation
    && (ref.incarnation == slots[ref.index].incarnation ==> NoteOf(v, ref).revoked)
  }

  /** An acknowledgement in flight names a slot its worker can no longer reach. */
  ghost predicate AckSound(slots: seq<Slot>, views: map<nat, View>, ack: Notice) {
    var ref := ack.slot;
    && ref.index < |slots| && ref.incarnation <= slots[ref.index].incarnation
    && (ref.incarnation == slots[ref.index].incarnation ==>
          && Withdrawn(slots[ref.index]) && slots[ref.index].identity == ack.identity
          && (ack.identity.worker in views ==>
                !HoldsPin(views[ack.identity.worker], ref) && NoCurrent(views[ack.identity.worker], ref)))
  }

  ghost predicate ViewsSound(slots: seq<Slot>, views: map<nat, View>, born: set<nat>) {
    forall k :: k in views ==> k in born && views[k].worker == k && ViewSound(slots, views[k])
  }

  ghost predicate ObservationsSound(slots: seq<Slot>, views: map<nat, View>, observed: set<(nat, SlotRef)>, born: set<nat>) {
    forall o :: o in observed ==> o.0 in born && (o.0 in views ==> ObservedSound(slots, views[o.0], o.1))
  }

  ghost predicate AcksSound(slots: seq<Slot>, views: map<nat, View>, acks: set<Notice>, born: set<nat>) {
    forall ack :: ack in acks ==> ack.identity.worker in born && AckSound(slots, views, ack)
  }

  ghost predicate WorldInv(w: World) {
    && Inv(w.reg, w.history)
    && ViewsSound(w.reg.slots, w.views, w.born)
    && ObservationsSound(w.reg.slots, w.views, w.observed, w.born)
    && AcksSound(w.reg.slots, w.views, w.acks, w.born)
  }

  // ---- Host steps ----

  /** No view can reach slot j. */
  ghost predicate Unreached(views: map<nat, View>, j: nat) {
    forall k :: k in views ==> ViewMisses(views[k], j)
  }

  ghost predicate ViewMisses(v: View, j: nat) {
    && (v.pin.Some? ==> v.pin.value.slot.index != j)
    && (forall a :: a in v.current ==> v.current[a].index != j)
  }

  lemma ViewEvolves(a: seq<Slot>, b: seq<Slot>, out: set<nat>, v: View)
    requires ViewSound(a, v) && Evolves(a, b, out)
    requires forall j :: j in out ==> ViewMisses(v, j)
    ensures ViewSound(b, v)
  {
    if v.pin.Some? {
      var j := v.pin.value.slot.index;
      assert SlotEvolves(a[j], b[j], j in out);
    }
    forall x | x in v.current
      ensures CurrentSound(b, v, x)
    {
      assert CurrentSound(a, v, x);
      var j := v.current[x].index;
      assert SlotEvolves(a[j], b[j], j in out);
    }
    forall i | i in v.notes
      ensures NoteSound(b, v, i)
    {
      assert NoteSound(a, v, i);
      assert SlotEvolves(a[i], b[i], i in out);
    }
  }

  lemma AckEvolves(a: seq<Slot>, b: seq<Slot>, out: set<nat>, views: map<nat, View>, ack: Notice)
    requires AckSound(a, views, ack) && Evolves(a, b, out)
    ensures AckSound(b, views, ack)
  {
    hide NoCurrent;
    var j := ack.slot.index;
    assert SlotEvolves(a[j], b[j], j in out);
  }

  lemma ObservedEvolves(a: seq<Slot>, b: seq<Slot>, out: set<nat>, v: View, ref: SlotRef)
    requires ObservedSound(a, v, ref) && Evolves(a, b, out)
    ensures ObservedSound(b, v, ref)
  {
    assert SlotEvolves(a[ref.index], b[ref.index], ref.index in out);
  }

  /** Whatever the host does, views stay sound as long as it lets out only slots they cannot reach. */
  lemma HostEvolves(w: World, r: Registry, h: History, out: set<nat>)
    requires WorldInv(w) && Inv(r, h) && Evolves(w.reg.slots, r.slots, out)
    requires forall j :: j in out ==> Unreached(w.views, j)
    ensures WorldInv(w.(reg := r, history := h))
  {
    hide Inv, Evolves, ViewSound, ObservedSound, AckSound, ViewMisses;
    var a, b := w.reg.slots, r.slots;
    forall k | k in w.views
      ensures ViewSound(b, w.views[k])
    {
      ViewEvolves(a, b, out, w.views[k]);
    }
    forall ack | ack in w.acks
      ensures AckSound(b, w.views, ack)
    {
      AckEvolves(a, b, out, w.views, ack);
    }
    forall o | o in w.observed && o.0 in w.views
      ensures ObservedSound(b, w.views[o.0], o.1)
    {
      ObservedEvolves(a, b, out, w.views[o.0], o.1);
    }
  }

  /** The host frees a slot on an acknowledgement only when no view can reach it. */
  lemma AcknowledgedIsUnreached(w: World, ack: Notice)
    requires WorldInv(w) && ack in w.acks && AckAccepted(w.reg, ack)
    ensures Unreached(w.views, ack.slot.index)
  {
    hide Inv, ObservationsSound;
    var slots := w.reg.slots;
    var j := ack.slot.index;
    assert AckSound(slots, w.views, ack);
    forall k | k in w.views
      ensures ViewMisses(w.views[k], j)
    {
      var v := w.views[k];
      assert ViewSound(slots, v);
      forall a | a in v.current
        ensures v.current[a].index != j
      {
        assert CurrentSound(slots, v, a);
        assert k == ack.identity.worker ==> v.current[a] != ack.slot;
      }
    }
  }

  lemma AcknowledgedStep(w: World, ack: Notice)
    requires WorldInv(w) && ack in w.acks
    ensures WorldInv(w.(reg := ObserveAck(w.reg, ack)))
  {
    hide Inv, ViewsSound, ObservationsSound, AcksSound, Evolves, ObserveAck, AckAccepted, Unreached;
    AckLetsOut(w.reg, w.history, ack);
    if AckAccepted(w.reg, ack) {
      AcknowledgedIsUnreached(w, ack);
      HostEvolves(w, ObserveAck(w.reg, ack), w.history, {ack.slot.index});
    } else {
      HostEvolves(w, ObserveAck(w.reg, ack), w.history, {});
    }
  }

  lemma HostStep(w: World, op: Op)
    requires WorldInv(w)
    ensures WorldInv(Next(w, Host(op)))
  {
    hide Inv, ViewsSound, ObservationsSound, AcksSound, Evolves, Apply, Remember;
    ApplySound(w.reg, w.history, op);
    HostEvolves(w, Apply(w.reg, op), Remember(w.reg, w.history, op), {});
  }

  lemma ForgetView(w: World, worker: nat)
    requires WorldInv(w)
    ensures WorldInv(w.(views := w.views - {worker}, born := w.born + {worker}))
  {
    hide Inv, ViewSound, ObservedSound, NoCurrent, HoldsPin;
    var views := w.views - {worker};
    forall ack | ack in w.acks
      ensures AckSound(w.reg.slots, views, ack)
    {
      assert AckSound(w.reg.slots, w.views, ack);
    }
  }

  /** A view reaches only slots of its own worker. */
  lemma ReachIsOwn(slots: seq<Slot>, v: View, j: nat)
    requires ViewSound(slots, v) && j < |slots|
    requires Held(slots[j]) ==> slots[j].identity.worker != v.worker
    ensures ViewMisses(v, j)
  {
    forall a | a in v.current
      ensures v.current[a].index != j
    {
      assert CurrentSound(slots, v, a);
    }
  }

  lemma EndedStep(w: World, worker: nat)
    requires WorldInv(w)
    ensures WorldInv(Next(w, Ended(worker)))
  {
    hide Inv, ObservationsSound, AcksSound, Evolves, Terminate, ViewSound, ViewMisses;
    var gone := w.(views := w.views - {worker}, born := w.born + {worker});
    ForgetView(w, worker);
    var out := TerminateSound(w.reg, w.history, worker);
    forall j | j in out
      ensures Unreached(gone.views, j)
    {
      forall k | k in gone.views
        ensures ViewMisses(gone.views[k], j)
      {
        ReachIsOwn(w.reg.slots, gone.views[k], j);
      }
    }
    HostEvolves(gone, Terminate(w.reg, worker), w.history, out);
  }

  lemma BornStep(w: World, worker: nat, stream: nat)
    requires WorldInv(w) && worker !in w.born
    ensures WorldInv(Next(w, Born(worker, stream)))
  {
    hide Inv, ObservedSound;
    var views := w.views[worker := NewView(worker, stream)];
    forall k | k in views
      ensures ViewSound(w.reg.slots, views[k])
    {
      if k != worker { assert ViewSound(w.reg.slots, w.views[k]); }
    }
    forall ack | ack in w.acks
      ensures AckSound(w.reg.slots, views, ack)
    {
      assert AckSound(w.reg.slots, w.views, ack);
    }
  }

  // ---- Worker steps ----

  /** Only pins of the worker's own slots change. */
  ghost predicate OnlyPins(a: seq<Slot>, b: seq<Slot>, worker: nat) {
    |a| == |b| && forall j :: 0 <= j < |a| ==>
      b[j] == a[j].(pinned := b[j].pinned) && (b[j] == a[j] || (Held(a[j]) && a[j].identity.worker == worker))
  }

  /** The view reaches nothing new except through its current plan or a published slot. */
  ghost predicate ReachesNoMore(slots: seq<Slot>, v: View, next: View) {
    forall ref: SlotRef :: Resolves(slots, ref) && Withdrawn(slots[ref.index]) && NoCurrent(v, ref) ==>
      NoCurrent(next, ref) && (HoldsPin(next, ref) ==> HoldsPin(v, ref))
  }

  ghost predicate ForgetsNothing(slots: seq<Slot>, v: View, next: View) {
    forall ref: SlotRef :: Resolves(slots, ref) && NoteOf(v, ref).revoked ==> NoteOf(next, ref).revoked
  }

  lemma OtherViewSound(a: seq<Slot>, b: seq<Slot>, worker: nat, v: View)
    requires ViewSound(a, v) && v.worker != worker && OnlyPins(a, b, worker)
    ensures ViewSound(b, v)
  {
    forall x | x in v.current
      ensures CurrentSound(b, v, x)
    {
      assert CurrentSound(a, v, x);
    }
    forall i | i in v.notes
      ensures NoteSound(b, v, i)
    {
      assert NoteSound(a, v, i);
    }
  }

  lemma OldAckSound(a: seq<Slot>, b: seq<Slot>, views: map<nat, View>, next: View, ack: Notice)
    requires next.worker in views && OnlyPins(a, b, next.worker) && ReachesNoMore(a, views[next.worker], next)
    requires AckSound(a, views, ack)
    ensures AckSound(b, views[next.worker := next], ack)
  {
    hide NoCurrent;
    assert b[ack.slot.index] == a[ack.slot.index].(pinned := b[ack.slot.index].pinned);
  }

  /** What a worker step has to show for itself. */
  lemma ViewStep(w: World, slots: seq<Slot>, next: View, ack: Option<Notice>)
    requires WorldInv(w) && next.worker in w.views
    requires OnlyPins(w.reg.slots, slots, next.worker)
    requires ViewSound(slots, next)
    requires ReachesNoMore(w.reg.slots, w.views[next.worker], next) && ForgetsNothing(w.reg.slots, w.views[next.worker], next)
    requires ack.Some? ==> ack.value.identity.worker in w.born && AckSound(slots, w.views[next.worker := next], ack.value)
    ensures WorldInv(WithView(w, slots, next, ack))
  {
    hide Inv, ViewSound, AckSound, ReachesNoMore, NoteOf;
    var a, views := w.reg.slots, w.views[next.worker := next];
    PinsKeepInv(w.reg, w.history, slots, next.worker);
    forall k | k in views
      ensures ViewSound(slots, views[k])
    {
      if k != next.worker { OtherViewSound(a, slots, next.worker, views[k]); }
    }
    forall x | x in w.acks
      ensures AckSound(slots, views, x)
    {
      OldAckSound(a, slots, w.views, next, x);
    }
    forall o | o in w.observed && o.0 in views
      ensures ObservedSound(slots, views[o.0], o.1)
    {
      assert ObservedSound(a, w.views[o.0], o.1);
    }
  }

  lemma PinsKeepInv(r: Registry, h: History, slots: seq<Slot>, worker: nat)
    requires Inv(r, h) && OnlyPins(r.slots, slots, worker)
    ensures Inv(r.(slots := slots), h)
  {
    hide KeysSound, PairsSound, StoreFrom, Content;
    forall j | 0 <= j < |slots|
      ensures Filled(slots[j]) == Filled(r.slots[j]) && slots[j].identity == r.slots[j].identity && slots[j].state == r.slots[j].state
    {
    }
    forall a | a in r.records
      ensures RecordSound(r.records[a], a, slots)
    {
      assert RecordSound(r.records[a], a, r.slots);
    }
  }

  lemma SamePins(slots: seq<Slot>, worker: nat)
    ensures OnlyPins(slots, slots, worker)
  {
  }

  /** Only the clock and the transaction number move. */
  lemma TickSound(slots: seq<Slot>, v: View, clock: Clock, top: nat)
    requires ViewSound(slots, v)
    ensures ViewSound(slots, v.(clock := clock, transactionTop := top))
    ensures ReachesNoMore(slots, v, v.(clock := clock, transactionTop := top))
    ensures ForgetsNothing(slots, v, v.(clock := clock, transactionTop := top))
  {
    var next := v.(clock := clock, transactionTop := top);
    forall x | x in v.current
      ensures CurrentSound(slots, next, x)
    {
      assert CurrentSound(slots, v, x);
    }
    forall i | i in v.notes
      ensures NoteSound(slots, next, i)
    {
      assert NoteSound(slots, v, i);
    }
  }

  lemma ConsultsStep(w: World, worker: nat, now: Reading)
    requires WorldInv(w) && worker in w.views
    ensures WorldInv(Next(w, Consults(worker, now)))
  {
    hide Inv, ViewSound, ReachesNoMore, ForgetsNothing, ObservationsSound, AcksSound, OnlyPins;
    var v := w.views[worker];
    SamePins(w.reg.slots, worker);
    TickSound(w.reg.slots, v, v.clock.Observe(now), v.transactionTop);
    ViewStep(w, w.reg.slots, v.(clock := v.clock.Observe(now)), None);
  }

  function Flag(n: Note, revoked: bool): Note {
    if revoked then n.(revoked := true) else n.(superseded := true)
  }

  /** Noting the retirement of a slot that is withdrawn and no longer current. */
  lemma NoteKeeps(slots: seq<Slot>, v: View, ref: SlotRef, revoked: bool)
    requires ViewSound(slots, v) && Resolves(slots, ref) && Withdrawn(slots[ref.index]) && NoCurrent(v, ref)
    ensures ViewSound(slots, SetNote(v, ref, Flag(NoteOf(v, ref), revoked)))
    ensures ReachesNoMore(slots, v, SetNote(v, ref, Flag(NoteOf(v, ref), revoked)))
    ensures ForgetsNothing(slots, v, SetNote(v, ref, Flag(NoteOf(v, ref), revoked)))
  {
    var next := SetNote(v, ref, Flag(NoteOf(v, ref), revoked));
    assert SlotRef(ref.index, ref.incarnation) == ref;
    forall x | x in v.current
      ensures CurrentSound(slots, next, x)
    {
      assert CurrentSound(slots, v, x);
    }
    forall i | i in next.notes
      ensures NoteSound(slots, next, i)
    {
      if i != ref.index { assert NoteSound(slots, v, i); }
    }
  }

  /** Taking an address off selection. */
  lemma FenceKeeps(slots: seq<Slot>, v: View, address: byte)
    requires ViewSound(slots, v)
    ensures ViewSound(slots, v.(current := v.current - {address}))
    ensures ReachesNoMore(slots, v, v.(current := v.current - {address}))
    ensures ForgetsNothing(slots, v, v.(current := v.current - {address}))
  {
    var next := v.(current := v.current - {address});
    forall x | x in next.current
      ensures CurrentSound(slots, next, x)
    {
      assert CurrentSound(slots, v, x);
    }
    forall i | i in v.notes
      ensures NoteSound(slots, next, i)
    {
      assert NoteSound(slots, v, i);
    }
  }

  lemma ReachesChains(slots: seq<Slot>, a: View, b: View, c: View)
    requires ReachesNoMore(slots, a, b) && ReachesNoMore(slots, b, c) && ForgetsNothing(slots, a, b) && ForgetsNothing(slots, b, c)
    ensures ReachesNoMore(slots, a, c) && ForgetsNothing(slots, a, c)
  {
    hide NoCurrent, NoteOf, HoldsPin;
  }

  /** A slot stands under its own address only, so fencing that address fences the slot. */
  lemma FencedSlot(slots: seq<Slot>, v: View, ref: SlotRef)
    requires ViewSound(slots, v) && Resolves(slots, ref)
    requires var a := slots[ref.index].identity.key.address; a in v.current ==> v.current[a] != ref
    ensures NoCurrent(v, ref)
  {
    forall x | x in v.current
      ensures v.current[x] != ref
    {
      assert CurrentSound(slots, v, x);
    }
  }

  lemma ObserveKeeps(slots: seq<Slot>, v: View, n: Revocation)
    requires ViewSound(slots, v) && Heeded(slots, v, n)
    ensures var next := ObserveRevocation(slots, v, n).0;
      && ViewSound(slots, next) && ReachesNoMore(slots, v, next) && ForgetsNothing(slots, v, next)
      && NoCurrent(next, n.slot) && next.worker == v.worker
      && (n.reason != Superseded ==> NoteOf(next, n.slot).revoked)
  {
    hide ViewSound, ReachesNoMore, ForgetsNothing, NoCurrent;
    var address := n.identity.key.address;
    var fenced := if address in v.current && v.current[address] == n.slot then v.(current := v.current - {address}) else v;
    FenceKeeps(slots, v, address);
    TickSound(slots, v, v.clock, v.transactionTop);
    assert v.(clock := v.clock, transactionTop := v.transactionTop) == v;
    FencedSlot(slots, fenced, n.slot);
    NoteKeeps(slots, fenced, n.slot, n.reason != Superseded);
    var next := SetNote(fenced, n.slot, Flag(NoteOf(fenced, n.slot), n.reason != Superseded));
    assert next == ObserveRevocation(slots, v, n).0;
    ReachesChains(slots, v, fenced, next);
    SameReach(fenced, next, n.slot);
  }

  lemma SameReach(v: View, next: View, ref: SlotRef)
    requires NoCurrent(v, ref) && next.current == v.current
    ensures NoCurrent(next, ref)
  {
  }

  lemma ObservesStep(w: World, worker: nat, n: Revocation)
    requires WorldInv(w) && worker in w.views
    ensures WorldInv(Next(w, Observes(worker, n)))
  {
    hide Inv, ViewSound, ReachesNoMore, ForgetsNothing, AcksSound, OnlyPins, NoCurrent, ObserveRevocation, NoteOf;
    var slots, v := w.reg.slots, w.views[worker];
    var (next, ack) := ObserveRevocation(slots, v, n);
    ObserveAcks(slots, v, n);
    if Heeded(slots, v, n) {
      SamePins(slots, worker);
      ObserveKeeps(slots, v, n);
      ViewStep(w, slots, next, ack);
    } else {
      assert w.views[worker := v] == w.views;
      assert w.acks + {} == w.acks;
    }
  }

  lemma ObserveAcks(slots: seq<Slot>, v: View, n: Revocation)
    ensures var (next, ack) := ObserveRevocation(slots, v, n);
      && (Heeded(slots, v, n) && ack.Some? ==> ack.value == Notice(n.slot, n.identity) && !HoldsPin(next, n.slot))
      && (!Heeded(slots, v, n) ==> next == v && ack.None?)
  {
  }

  /** Installing a published plan under its address. */
  lemma InstallKeeps(slots: seq<Slot>, v: View, ref: SlotRef)
    requires ViewSound(slots, v) && Resolves(slots, ref) && slots[ref.index].state == Published
    requires slots[ref.index].identity.worker == v.worker
    requires slots[ref.index].identity.plan > Top(v, slots[ref.index].identity.key.address)
    ensures var next := Installed(slots, v, ref);
      ViewSound(slots, next) && ReachesNoMore(slots, v, next) && ForgetsNothing(slots, v, next)
  {
    var next := Installed(slots, v, ref);
    forall x | x in next.current
      ensures CurrentSound(slots, next, x)
    {
      if x != slots[ref.index].identity.key.address { assert CurrentSound(slots, v, x); }
    }
    forall i | i in v.notes
      ensures NoteSound(slots, next, i)
    {
      assert NoteSound(slots, v, i);
    }
  }

  function Installed(slots: seq<Slot>, v: View, ref: SlotRef): View
    requires Resolves(slots, ref)
  {
    var id := slots[ref.index].identity;
    v.(planTop := v.planTop[id.key.address := id.plan], current := v.current[id.key.address := ref])
  }

  /** The plan a newer one replaces is not the published one: an address has only one. */
  lemma ReplacedIsRetained(r: Registry, h: History, v: View, ref: SlotRef)
    requires Inv(r, h) && ViewSound(r.slots, v) && Resolves(r.slots, ref) && r.slots[ref.index].state == Published
    requires var id := r.slots[ref.index].identity; id.plan > Top(v, id.key.address) && id.key.address in v.current
    ensures var prior := v.current[r.slots[ref.index].identity.key.address];
      Resolves(r.slots, prior) && r.slots[prior.index].state == Retained && prior != ref && r.slots[prior.index].identity.worker == v.worker
  {
    hide KeysSound, PairsSound, SlotsSound, NoteSound, PinSound;
    assert CurrentSound(r.slots, v, r.slots[ref.index].identity.key.address);
  }

  /** Adoption in three moves: clock, installation, note on the plan replaced. */
  lemma AdoptKeeps(r: Registry, h: History, v: View, n: Notice, now: Reading)
    requires Inv(r, h) && ViewSound(r.slots, v)
    ensures var (next, ack) := Adopt(r.slots, v, n, now);
      && ViewSound(r.slots, next) && ReachesNoMore(r.slots, v, next) && ForgetsNothing(r.slots, v, next)
      && next.worker == v.worker
      && (ack.Some? ==> AckGood(r.slots, next, ack.value))
  {
    hide Inv, ViewSound, ReachesNoMore, ForgetsNothing, NoCurrent, Top, NoteOf, SetNote;
    var slots := r.slots;
    var seen := v.(clock := v.clock.Observe(now));
    TickSound(slots, v, seen.clock, v.transactionTop);
    assert v.(clock := seen.clock, transactionTop := v.transactionTop) == seen;
    if !seen.clock.closed && Adoptable(slots, seen, n, now) {
      var address := n.identity.key.address;
      var next := Installed(slots, seen, n.slot);
      InstallKeeps(slots, seen, n.slot);
      ReachesChains(slots, v, seen, next);
      if address in seen.current {
        var prior := seen.current[address];
        ReplacedIsRetained(r, h, seen, n.slot);
        FencedSlot(slots, next, prior) by { CurrentAddress(slots, seen, address); }
        NoteKeeps(slots, next, prior, false);
        var noted := SetNote(next, prior, Flag(NoteOf(next, prior), false));
        ReachesChains(slots, v, next, noted);
        NotedSame(next, prior, false);
        SameReach(next, noted, prior);
      }
    }
  }

  lemma NotedSame(v: View, ref: SlotRef, revoked: bool)
    ensures SetNote(v, ref, Flag(NoteOf(v, ref), revoked)) == v.(notes := SetNote(v, ref, Flag(NoteOf(v, ref), revoked)).notes)
    ensures SetNote(v, ref, NoteOf(v, ref).(superseded := true)) == SetNote(v, ref, Flag(NoteOf(v, ref), false))
  {
  }

  lemma CurrentAddress(slots: seq<Slot>, v: View, address: byte)
    requires ViewSound(slots, v) && address in v.current
    ensures CurrentSound(slots, v, address)
  {
  }

  /** What a view may acknowledge. */
  ghost predicate AckGood(slots: seq<Slot>, v: View, ack: Notice) {
    && Resolves(slots, ack.slot) && Withdrawn(slots[ack.slot.index]) && slots[ack.slot.index].identity == ack.identity
    && ack.identity.worker == v.worker && !HoldsPin(v, ack.slot) && NoCurrent(v, ack.slot)
  }

  lemma AdoptsStep(w: World, worker: nat, n: Notice, now: Reading)
    requires WorldInv(w) && worker in w.views
    ensures WorldInv(Next(w, Adopts(worker, n, now)))
  {
    hide Inv, ViewSound, ReachesNoMore, ForgetsNothing, ObservationsSound, AcksSound, OnlyPins, NoCurrent, Adopt;
    var slots, v := w.reg.slots, w.views[worker];
    var (next, ack) := Adopt(slots, v, n, now);
    SamePins(slots, worker);
    AdoptKeeps(w.reg, w.history, v, n, now);
    ViewStep(w, slots, next, ack);
  }

  lemma UnpinSound(slots: seq<Slot>, v: View, stream: nat, top: nat, current: map<byte, SlotRef>)
    requires ViewSound(slots, v) && v.pin.Some? && (current == map[] || current == v.current)
    ensures var next := v.(stream := stream, transactionTop := top, current := current, pin := None);
      var later := Unpin(slots, v.pin.value.slot);
      OnlyPins(slots, later, v.worker) && ViewSound(later, next) && ReachesNoMore(slots, v, next) && ForgetsNothing(slots, v, next)
  {
    var next := v.(stream := stream, transactionTop := top, current := current, pin := None);
    var later := Unpin(slots, v.pin.value.slot);
    forall x | x in next.current
      ensures CurrentSound(later, next, x)
    {
      assert CurrentSound(slots, v, x);
    }
    forall i | i in v.notes
      ensures NoteSound(later, next, i)
    {
      assert NoteSound(slots, v, i);
    }
  }

  lemma NoSelectionSound(slots: seq<Slot>, v: View, stream: nat)
    requires ViewSound(slots, v) && v.pin.None?
    ensures var next := v.(stream := stream, transactionTop := 0, current := map[]);
      ViewSound(slots, next) && ReachesNoMore(slots, v, next) && ForgetsNothing(slots, v, next)
  {
    var next := v.(stream := stream, transactionTop := 0, current := map[]);
    forall i | i in v.notes
      ensures NoteSound(slots, next, i)
    {
      assert NoteSound(slots, v, i);
    }
  }

  lemma AdvanceKeeps(slots: seq<Slot>, v: View, stream: nat)
    requires ViewSound(slots, v)
    ensures var (later, next) := AdvanceStream(slots, v, stream);
      OnlyPins(slots, later, v.worker) && ViewSound(later, next) && ReachesNoMore(slots, v, next) && ForgetsNothing(slots, v, next)
  {
    hide OnlyPins, ViewSound, ReachesNoMore, ForgetsNothing, Unpin;
    SamePins(slots, v.worker);
    TickSound(slots, v, v.clock, v.transactionTop);
    assert v.(clock := v.clock, transactionTop := v.transactionTop) == v;
    if stream > v.stream {
      if v.pin.Some? {
        UnpinSound(slots, v, stream, 0, map[]);
      } else {
        NoSelectionSound(slots, v, stream);
        assert v.(stream := stream, transactionTop := 0, current := map[], pin := None) == v.(stream := stream, transactionTop := 0, current := map[]);
      }
    }
  }

  lemma AdvancesStep(w: World, worker: nat, stream: nat)
    requires WorldInv(w) && worker in w.views
    ensures WorldInv(Next(w, Advances(worker, stream)))
  {
    hide Inv, ViewSound, ReachesNoMore, ForgetsNothing, ObservationsSound, AcksSound, OnlyPins;
    var slots, v := w.reg.slots, w.views[worker];
    var (later, next) := AdvanceStream(slots, v, stream);
    AdvanceKeeps(slots, v, stream);
    ViewStep(w, later, next, None);
  }

  lemma PinKeeps(slots: seq<Slot>, v: View, address: byte, transaction: nat)
    requires ViewSound(slots, v) && v.pin.None? && address in v.current
    ensures var ref := v.current[address];
      && ref.index < |slots|
      && var next := v.(pin := Some(Pin(WireKey(slots[ref.index].identity, transaction), ref)));
      var later := slots[ref.index := slots[ref.index].(pinned := true)];
      OnlyPins(slots, later, v.worker) && ViewSound(later, next) && ReachesNoMore(slots, v, next) && ForgetsNothing(slots, v, next)
  {
    var ref := v.current[address];
    assert CurrentSound(slots, v, address);
    var next := v.(pin := Some(Pin(WireKey(slots[ref.index].identity, transaction), ref)));
    var later := slots[ref.index := slots[ref.index].(pinned := true)];
    forall x | x in next.current
      ensures CurrentSound(later, next, x)
    {
      assert CurrentSound(slots, v, x);
    }
    forall i | i in v.notes
      ensures NoteSound(later, next, i)
    {
      assert NoteSound(slots, v, i);
    }
  }

  lemma SelectKeeps(slots: seq<Slot>, v: View, address: byte, transaction: nat, now: Reading)
    requires ViewSound(slots, v)
    ensures var (later, next) := Select(slots, v, address, transaction, now);
      OnlyPins(slots, later, v.worker) && ViewSound(later, next) && ReachesNoMore(slots, v, next) && ForgetsNothing(slots, v, next)
  {
    hide OnlyPins, ViewSound, ReachesNoMore, ForgetsNothing;
    SamePins(slots, v.worker);
    var seen := v.(clock := v.clock.Observe(now));
    var numbered := seen.(transactionTop := transaction);
    TickSound(slots, v, seen.clock, v.transactionTop);
    TickSound(slots, v, seen.clock, transaction);
    assert seen == v.(clock := seen.clock, transactionTop := v.transactionTop);
    if !seen.clock.closed && transaction > seen.transactionTop && Selectable(slots, numbered, address, now) {
      PinKeeps(slots, numbered, address, transaction);
      ReachesChains(slots, v, numbered, Select(slots, v, address, transaction, now).1);
    }
  }

  lemma ChoosesStep(w: World, worker: nat, address: byte, transaction: nat, now: Reading)
    requires WorldInv(w) && worker in w.views
    ensures WorldInv(Next(w, Chooses(worker, address, transaction, now)))
  {
    hide Inv, ViewSound, ReachesNoMore, ForgetsNothing, ObservationsSound, AcksSound, OnlyPins;
    var slots, v := w.reg.slots, w.views[worker];
    var (later, next) := Select(slots, v, address, transaction, now);
    SelectKeeps(slots, v, address, transaction, now);
    ViewStep(w, later, next, None);
  }

  /** Writing back the note a view already had changes nothing it says. */
  lemma SameNoteKeeps(slots: seq<Slot>, v: View, ref: SlotRef)
    requires ViewSound(slots, v) && Resolves(slots, ref)
    ensures var next := SetNote(v, ref, NoteOf(v, ref));
      ViewSound(slots, next) && ReachesNoMore(slots, v, next) && ForgetsNothing(slots, v, next)
  {
    var next := SetNote(v, ref, NoteOf(v, ref));
    forall x | x in v.current
      ensures CurrentSound(slots, next, x)
    {
      assert CurrentSound(slots, v, x);
    }
    forall i | i in next.notes
      ensures NoteSound(slots, next, i)
    {
      if i in v.notes { assert NoteSound(slots, v, i); }
    }
  }

  lemma ReleaseKeeps(slots: seq<Slot>, v: View, key: WireKey)
    requires ViewSound(slots, v)
    ensures var (later, next, ack) := ReleasePin(slots, v, key);
      && OnlyPins(slots, later, v.worker) && ViewSound(later, next) && ReachesNoMore(slots, v, next) && ForgetsNothing(slots, v, next)
      && (ack.Some? ==> AckGood(later, next, ack.value))
  {
    hide OnlyPins, ViewSound, ReachesNoMore, ForgetsNothing, SetNote, NoteOf;
    if v.pin.None? || v.pin.value.key != key {
      SamePins(slots, v.worker);
      TickSound(slots, v, v.clock, v.transactionTop);
      assert v.(clock := v.clock, transactionTop := v.transactionTop) == v;
    } else {
      var ref := v.pin.value.slot;
      var noted := SetNote(v, ref, NoteOf(v, ref));
      PinIsHeld(slots, v);
      NotedPin(v, ref);
      SameNoteKeeps(slots, v, ref);
      UnpinSound(slots, noted, noted.stream, noted.transactionTop, noted.current);
      var next := noted.(pin := None);
      assert noted.(stream := noted.stream, transactionTop := noted.transactionTop, current := noted.current, pin := None) == next;
      ReachesChains(slots, v, noted, next);
      RetiredPinGood(slots, v);
    }
  }

  lemma NotedPin(v: View, ref: SlotRef)
    ensures SetNote(v, ref, NoteOf(v, ref)) == v.(notes := SetNote(v, ref, NoteOf(v, ref)).notes)
  {
  }

  lemma PinIsHeld(slots: seq<Slot>, v: View)
    requires ViewSound(slots, v)
    ensures PinSound(slots, v)
  {
  }

  /** A pin released later a noted retirement leaves a slot nothing reaches. */
  lemma RetiredPinGood(slots: seq<Slot>, v: View)
    requires ViewSound(slots, v) && v.pin.Some?
    ensures var ref := v.pin.value.slot;
      var note := NoteOf(v, ref);
      note.superseded || note.revoked ==>
        AckGood(Unpin(slots, ref), SetNote(v, ref, note).(pin := None), Notice(ref, v.pin.value.key.identity))
  {
    var ref := v.pin.value.slot;
    assert SlotRef(ref.index, ref.incarnation) == ref;
    if ref.index in v.notes { assert NoteSound(slots, v, ref.index); }
  }

  lemma ReleasesStep(w: World, worker: nat, key: WireKey)
    requires WorldInv(w) && worker in w.views
    ensures WorldInv(Next(w, Releases(worker, key)))
  {
    hide Inv, ViewSound, ReachesNoMore, ForgetsNothing, ObservationsSound, AcksSound, OnlyPins, NoCurrent, ReleasePin;
    var slots, v := w.reg.slots, w.views[worker];
    var (later, next, ack) := ReleasePin(slots, v, key);
    ReleaseKeeps(slots, v, key);
    ReleaseWorker(slots, v, key);
    ViewStep(w, later, next, ack);
  }

  lemma ReleaseWorker(slots: seq<Slot>, v: View, key: WireKey)
    ensures ReleasePin(slots, v, key).1.worker == v.worker && ReleasePin(slots, v, key).1.stream == v.stream
  {
  }

  // ---- Every run ----

  lemma StepSound(w: World, a: Action)
    requires WorldInv(w) && Enabled(w, a)
    ensures WorldInv(Next(w, a))
  {
    hide WorldInv, Next;
    match a
    case Host(op) => HostStep(w, op);
    case Acknowledged(ack) => AcknowledgedNext(w, ack);
    case Ended(worker) => EndedStep(w, worker);
    case Born(worker, stream) => BornStep(w, worker, stream);
    case Adopts(worker, n, now) => AdoptsStep(w, worker, n, now);
    case Observes(worker, n) => ObservesStep(w, worker, n);
    case Advances(worker, stream) => AdvancesStep(w, worker, stream);
    case Chooses(worker, address, transaction, now) => ChoosesStep(w, worker, address, transaction, now);
    case Consults(worker, now) => ConsultsStep(w, worker, now);
    case Releases(worker, key) => ReleasesStep(w, worker, key);
  }

  lemma AcknowledgedNext(w: World, ack: Notice)
    requires WorldInv(w) && ack in w.acks
    ensures WorldInv(Next(w, Acknowledged(ack)))
  {
    hide WorldInv;
    AcknowledgedStep(w, ack);
  }

  ghost predicate Initial(w: World) {
    && w.reg.subscribers == map[] && w.reg.records == map[] && w.reg.worker == w.reg.workerTop == w.reg.planTop == 0
    && (forall j :: 0 <= j < |w.reg.slots| ==> w.reg.slots[j].state == Free && w.reg.slots[j].incarnation == 1)
    && w.history == History({}, {}, map[]) && w.views == map[] && w.born == {} && w.acks == {} && w.observed == {}
  }

  ghost predicate Run(w: World, trace: seq<Action>, end: World)
    decreases trace
  {
    if trace == [] then w == end
    else Enabled(w, trace[0]) && Run(Next(w, trace[0]), trace[1..], end)
  }

  ghost predicate Reachable(w: World) {
    exists start, trace :: Initial(start) && Run(start, trace, w)
  }

  lemma {:induction false} RunSound(w: World, trace: seq<Action>, end: World)
    requires WorldInv(w) && Run(w, trace, end)
    ensures WorldInv(end)
    decreases trace
  {
    hide WorldInv, Next;
    if trace != [] {
      StepSound(w, trace[0]);
      RunSound(Next(w, trace[0]), trace[1..], end);
    }
  }

  lemma InitialSound(w: World)
    requires Initial(w)
    ensures WorldInv(w)
  {
  }

  lemma ReachableSound(w: World)
    requires Reachable(w)
    ensures WorldInv(w)
  {
    hide WorldInv;
    var start, trace :| Initial(start) && Run(start, trace, w);
    InitialSound(start);
    RunSound(start, trace, w);
  }
}
