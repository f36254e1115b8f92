/** What registry, pool and worker views guarantee in every run. */
module PlanTheorems {
  import opened Octets
  import opened Overlap
  import opened Registry
  import opened WorkerView
  import opened RegistrySafety
  import opened PlanSafety
  import Address

  // ---- A slot reads back as the candidate it was filled from ----

  /** The stored entry describes e, and points at e's request and reply in content placed at cursor. */
  ghost predicate Describes(s: Stored, e: Entry, cursor: nat, content: seq<byte>) {
    && s.any == e.any && s.source == e.source && s.pb == e.pb && s.sb == e.sb && s.phase == e.phase
    && s.requestLen == |e.request| && s.replyLen == |e.response|
    && cursor <= s.requestStart && s.replyStart == s.requestStart + s.requestLen
    && s.replyStart + s.replyLen <= cursor + |content|
    && content[s.requestStart - cursor..s.replyStart - cursor] == e.request
    && content[s.replyStart - cursor..s.replyStart - cursor + s.replyLen] == e.response
  }

  lemma {:induction false} StoredEntry(cursor: nat, entries: seq<Entry>, i: nat)
    requires i < |entries|
    ensures |StoreFrom(cursor, entries)| == |entries|
    ensures Describes(StoreFrom(cursor, entries)[i], entries[i], cursor, Content(entries))
    decreases entries
  {
    hide Describes;
    var e, rest := entries[0], entries[1..];
    var later := cursor + |e.request| + |e.response|;
    StoredLength(cursor, entries);
    if i == 0 {
      FirstDescribed(e, cursor, Content(rest));
    } else {
      StoredEntry(later, rest, i - 1);
      DescribedBehind(StoreFrom(later, rest)[i - 1], entries[i], cursor, e.request + e.response, Content(rest));
    }
  }

  lemma FirstDescribed(e: Entry, cursor: nat, rest: seq<byte>)
    ensures Describes(Stored(e.any, e.source, e.pb, e.sb, e.phase, cursor, |e.request|, cursor + |e.request|, |e.response|),
                      e, cursor, e.request + e.response + rest)
  {
    var content := e.request + e.response + rest;
    assert content[..|e.request|] == e.request;
    assert content[|e.request|..|e.request| + |e.response|] == e.response;
  }

  lemma DescribedBehind(s: Stored, e: Entry, cursor: nat, head: seq<byte>, content: seq<byte>)
    requires Describes(s, e, cursor + |head|, content)
    ensures Describes(s, e, cursor, head + content)
  {
    var c := cursor + |head|;
    ShiftedSlice(head, content, s.requestStart - c, s.replyStart - c);
    ShiftedSlice(head, content, s.replyStart - c, s.replyStart - c + s.replyLen);
  }

  lemma {:induction false} StoredLength(cursor: nat, entries: seq<Entry>)
    ensures |StoreFrom(cursor, entries)| == |entries|
    decreases entries
  {
    if entries != [] { StoredLength(cursor + |entries[0].request| + |entries[0].response|, entries[1..]); }
  }

  lemma ShiftedSlice(a: seq<byte>, b: seq<byte>, i: nat, j: nat)
    requires i <= j <= |b|
    ensures (a + b)[i + |a|..j + |a|] == b[i..j]
  {
  }

  lemma CarriedEntry(s: Slot, p: Plan, i: nat)
    requires Carries(s, p) && i < |p.candidate.entries|
    ensures i < |s.entries| == |p.candidate.entries|
    ensures var e := p.candidate.entries[i];
      var st := s.entries[i];
      && st.replyStart + st.replyLen <= |s.bytes| && s.bytes[st.replyStart..st.replyStart + st.replyLen] == e.response
      && st.requestStart + st.requestLen <= |s.bytes| && s.bytes[st.requestStart..st.requestStart + st.requestLen] == e.request
      && st.replyLen == |e.response| && st.requestLen == |e.request|
      && st.any == e.any && st.source == e.source && st.pb == e.pb && st.sb == e.sb && st.phase == e.phase
  {
    hide StoreFrom, Content;
    var entries := p.candidate.entries;
    StoredEntry(0, entries, i);
    var st := s.entries[i];
    var whole := Content(entries);
    PrefixSlice(s.bytes, whole, st.requestStart, st.replyStart);
    PrefixSlice(s.bytes, whole, st.replyStart, st.replyStart + st.replyLen);
  }

  lemma PrefixSlice(bytes: seq<byte>, prefix: seq<byte>, i: nat, j: nat)
    requires |prefix| <= |bytes| && bytes[..|prefix|] == prefix && i <= j <= |prefix|
    ensures bytes[i..j] == prefix[i..j]
  {
    forall k | 0 <= k < j - i
      ensures bytes[i..j][k] == prefix[i..j][k]
    {
      assert bytes[i + k] == bytes[..|prefix|][i + k];
    }
  }

  // ---- Response bytes ----

  /** A live pin resolves to the plan prepared under its exact identity. */
  lemma LivePinCarries(w: World, worker: nat, pinKey: WireKey, claimed: WireKey, now: Reading)
    requires WorldInv(w) && worker in w.views && Live(w.reg.slots, w.views[worker], pinKey, claimed, now)
    ensures pinKey.identity in w.history.prepared
    ensures var s := w.reg.slots[w.views[worker].pin.value.slot.index];
      Carries(s, w.history.prepared[pinKey.identity]) && s.identity == pinKey.identity && s.validity.Holds(now)
  {
    hide TableSound, KeysSound, PairsSound, ObservationsSound, AcksSound, Carries;
    PinIsHeld(w.reg.slots, w.views[worker]);
  }

  /**
    In every reachable state, each byte a pin gives out is the byte at that offset of the reply
    prepared under the pin's exact identity, every deadline frozen into that plan lies in the
    future, and the worker has observed no revocation of the pinned slot but supersessions.
    */
  lemma SymbolIsPrepared(w: World, worker: nat, pinKey: WireKey, claimed: WireKey, entry: nat, offset: nat, phase: Phase, now: Reading)
    requires Reachable(w) && worker in w.views
    requires Symbol(w.reg.slots, w.views[worker], pinKey, claimed, entry, offset, phase, now).Some?
    ensures claimed == pinKey && pinKey.identity.worker == worker && pinKey.identity in w.history.prepared
    ensures var plan := w.history.prepared[pinKey.identity];
      && plan.candidate.identity == pinKey.identity
      && entry < |plan.candidate.entries| && offset < |plan.candidate.entries[entry].response|
      && Symbol(w.reg.slots, w.views[worker], pinKey, claimed, entry, offset, phase, now)
         == Some(plan.candidate.entries[entry].response[offset])
      && phase == PhaseResponse
      && now.domain == plan.validity.domain && now.tick < plan.validity.planExpiry
      && now.tick < plan.validity.registrationExpiry && now.tick < plan.validity.sourceExpiry
    ensures w.views[worker].pin.Some? && (worker, w.views[worker].pin.value.slot) !in w.observed
  {
    hide Inv, Carries, NoteOf, ViewSound, AcksSound;
    ReachableSound(w);
    LivePinCarries(w, worker, pinKey, claimed, now);
    PreparedFacts(w, pinKey.identity);
    PinIsHeld(w.reg.slots, w.views[worker]);
    var s := w.reg.slots[w.views[worker].pin.value.slot.index];
    var plan := w.history.prepared[pinKey.identity];
    CarriedLength(s, plan);
    CarriedEntry(s, plan, entry);
    var st := s.entries[entry];
    assert s.bytes[st.replyStart + offset] == s.bytes[st.replyStart..st.replyStart + st.replyLen][offset];
  }

  function ResponseLength(slots: seq<Slot>, v: View, entry: nat): Option<nat> {
    if v.pin.None? || !Resolves(slots, v.pin.value.slot) || entry >= |slots[v.pin.value.slot.index].entries| then None
    else Some(slots[v.pin.value.slot.index].entries[entry].replyLen)
  }

  /** The length a live pin reports for an entry is that of the reply prepared under its identity. */
  lemma LengthIsPrepared(w: World, worker: nat, pinKey: WireKey, now: Reading, entry: nat)
    requires Reachable(w) && worker in w.views && Live(w.reg.slots, w.views[worker], pinKey, pinKey, now)
    ensures pinKey.identity in w.history.prepared
    ensures var entries := w.history.prepared[pinKey.identity].candidate.entries;
      ResponseLength(w.reg.slots, w.views[worker], entry) == if entry < |entries| then Some(|entries[entry].response|) else None
  {
    hide WorldInv, Reachable, Carries;
    ReachableSound(w);
    LivePinCarries(w, worker, pinKey, pinKey, now);
    var s := w.reg.slots[w.views[worker].pin.value.slot.index];
    var plan := w.history.prepared[pinKey.identity];
    CarriedLength(s, plan);
    if entry < |plan.candidate.entries| { CarriedEntry(s, plan, entry); }
  }

  lemma CarriedLength(s: Slot, p: Plan)
    requires Carries(s, p)
    ensures |s.entries| == |p.candidate.entries| && s.validity == p.validity
  {
    StoredLength(0, p.candidate.entries);
  }

  lemma PreparedFacts(w: World, id: Identity)
    requires WorldInv(w) && id in w.history.prepared
    ensures var c := w.history.prepared[id].candidate;
      && c.identity == id && !SomeOverlap(c.entries)
      && forall i :: 0 <= i < |c.entries| ==> EntryGood(c.entries[i], id.key.address)
  {
    hide TableSound, KeysSound, SlotsSound, ViewsSound, ObservationsSound, AcksSound, SomeOverlap, EntryGood;
    assert PreparedSound(w.history, id);
  }

  // ---- Matching ----

  predicate Answers(e: Entry, q: Query) {
    e.destination == q.destination && Selects(e, q)
  }

  lemma StoredSelectsIsSelects(s: Slot, p: Plan, i: nat, q: Query)
    requires Carries(s, p) && i < |s.entries| && |s.entries| == |p.candidate.entries|
    requires p.candidate.entries[i].destination == q.destination && p.candidate.entries[i].requestLength == |p.candidate.entries[i].request|
    ensures StoredSelects(s, i, q) == Answers(p.candidate.entries[i], q)
  {
    hide Carries;
    CarriedEntry(s, p, i);
  }

  lemma {:induction false} FirstMatch(s: Slot, q: Query, i: nat)
    requires i <= |s.entries|
    ensures var m := MatchFrom(s, q, i);
      && (m.Some? ==> i <= m.value < |s.entries| && StoredSelects(s, m.value, q))
      && (m.None? ==> forall k :: i <= k < |s.entries| ==> !StoredSelects(s, k, q))
    decreases |s.entries| - i
  {
    hide StoredSelects;
    if i < |s.entries| { FirstMatch(s, q, i + 1); }
  }

  /**
    A match is the one entry of the pinned plan that answers the request, whatever the order of
    entries; no match means no entry does.
    */
  lemma MatchIsTheOnlyOne(w: World, worker: nat, pinKey: WireKey, claimed: WireKey, q: Query, now: Reading)
    requires Reachable(w) && worker in w.views && Live(w.reg.slots, w.views[worker], pinKey, claimed, now)
    requires Address.IsInitiator(q.source)
    ensures pinKey.identity in w.history.prepared
    ensures var entries := w.history.prepared[pinKey.identity].candidate.entries;
      var m := Match(w.reg.slots, w.views[worker], pinKey, claimed, q, now);
      && (m.Some? ==> m.value < |entries| && Answers(entries[m.value], q) &&
                      forall k: nat :: k < |entries| && Answers(entries[k], q) ==> k == m.value)
      && (m.None? ==> forall k: nat :: k < |entries| ==> !Answers(entries[k], q))
  {
    hide WorldInv, Reachable, Carries, Live, MatchFrom, SomeOverlap, StoredSelects;
    ReachableSound(w);
    LivePinCarries(w, worker, pinKey, claimed, now);
    PreparedFacts(w, pinKey.identity);
    assert w.views[worker].pin.Some? && Resolves(w.reg.slots, w.views[worker].pin.value.slot) by { LiveResolves(w, worker, pinKey, claimed, now); }
    var s := w.reg.slots[w.views[worker].pin.value.slot.index];
    var plan := w.history.prepared[pinKey.identity];
    MatchInSlot(s, plan, q);
  }

  lemma LiveResolves(w: World, worker: nat, pinKey: WireKey, claimed: WireKey, now: Reading)
    requires worker in w.views && Live(w.reg.slots, w.views[worker], pinKey, claimed, now)
    ensures w.views[worker].pin.Some? && Resolves(w.reg.slots, w.views[worker].pin.value.slot)
  {
  }

  lemma MatchInSlot(s: Slot, plan: Plan, q: Query)
    requires Carries(s, plan) && !SomeOverlap(plan.candidate.entries)
    requires forall i :: 0 <= i < |plan.candidate.entries| ==> EntryGood(plan.candidate.entries[i], s.identity.key.address)
    ensures var entries := plan.candidate.entries;
      var m := if q.destination != s.identity.key.address then None else MatchFrom(s, q, 0);
      && (m.Some? ==> m.value < |entries| && Answers(entries[m.value], q) &&
                      forall k: nat :: k < |entries| && Answers(entries[k], q) ==> k == m.value)
      && (m.None? ==> forall k: nat :: k < |entries| ==> !Answers(entries[k], q))
  {
    hide Carries, MatchFrom, SomeOverlap, StoredSelects, Selects, Answers;
    var entries := plan.candidate.entries;
    CarriedLength(s, plan);
    FirstMatch(s, q, 0);
    forall k: nat | k < |entries|
      ensures q.destination == s.identity.key.address ==> StoredSelects(s, k, q) == Answers(entries[k], q)
      ensures q.destination != s.identity.key.address ==> !Answers(entries[k], q)
    {
      assert EntryGood(entries[k], s.identity.key.address);
      if q.destination == s.identity.key.address {
        StoredSelectsIsSelects(s, plan, k, q);
      } else {
        WrongDestination(entries[k], q);
      }
    }
    var m := if q.destination != s.identity.key.address then None else MatchFrom(s, q, 0);
    if m.Some? {
      forall k: nat | k < |entries| && Answers(entries[k], q)
        ensures k == m.value
      {
        AnswersOnce(entries, q, m.value, k);
      }
    }
  }

  lemma WrongDestination(e: Entry, q: Query)
    requires e.destination != q.destination
    ensures !Answers(e, q)
  {
  }

  lemma AnswersOnce(entries: seq<Entry>, q: Query, i: nat, k: nat)
    requires !SomeOverlap(entries) && i < |entries| && k < |entries|
    requires Answers(entries[i], q) && Answers(entries[k], q)
    ensures i == k
  {
    SelectionUnique(entries, q, i, k);
  }

  // ---- Storage and addresses ----

  /** The host gives a slot up on an acknowledgement only when no worker can select or read it. */
  lemma AckFreesUnreached(w: World, ack: Notice)
    requires Reachable(w) && ack in w.acks && AckAccepted(w.reg, ack)
    ensures Unreached(w.views, ack.slot.index)
  {
    hide WorldInv, Reachable;
    ReachableSound(w);
    AcknowledgedIsUnreached(w, ack);
  }

  /** Each address has at most one published slot, and all its held slots carry the key of its record. */
  lemma AddressHasOneOwner(w: World, i: nat, j: nat)
    requires Reachable(w) && i < |w.reg.slots| && j < |w.reg.slots|
    requires Held(w.reg.slots[i]) && Held(w.reg.slots[j])
    requires w.reg.slots[i].identity.key.address == w.reg.slots[j].identity.key.address
    ensures w.reg.slots[i].identity.key == w.reg.slots[j].identity.key
    ensures w.reg.slots[i].state == Published && w.reg.slots[j].state == Published ==> i == j
    ensures HasRecord(w.reg, w.reg.slots[i].identity.key)
  {
    hide Reachable;
    ReachableSound(w);
  }

  /** A step that frees an address leaves none of its plans with a worker. */
  lemma FreedAddressIsEmpty(w: World, a: Action, address: byte, j: nat)
    requires Reachable(w) && Enabled(w, a) && address in w.reg.records && address !in Next(w, a).reg.records
    requires j < |Next(w, a).reg.slots| && Held(Next(w, a).reg.slots[j])
    ensures Next(w, a).reg.slots[j].identity.key.address != address
  {
    hide Reachable, Next, ViewsSound, ObservationsSound, AcksSound, KeysSound, PairsSound, SlotsSound;
    ReachableSound(w);
    StepSound(w, a);
  }

  ghost predicate AdmitsKey(w: World, a: Action, key: Key) {
    a.Host? && a.op.Claim? && a.op.c.key == key && RegisterSucceeds(w.reg, a.op.c, a.op.now)
  }

  ghost predicate AdmitsPair(w: World, a: Action, worker: nat, plan: nat) {
    a.Host? && a.op.Write? && a.op.plan.identity.worker == worker && a.op.plan.identity.plan == plan &&
    PrepareSucceeds(w.reg, a.op.plan, a.op.now)
  }

  lemma StepRemembers(w: World, a: Action)
    requires Enabled(w, a)
    ensures w.history.keys <= Next(w, a).history.keys && w.history.pairs <= Next(w, a).history.pairs
  {
    hide RegisterSucceeds, PrepareSucceeds, Apply, ObserveAck, Terminate, Adopt, ObserveRevocation, AdvanceStream, Select, ReleasePin;
  }

  lemma {:induction false} RunRemembers(w: World, trace: seq<Action>, end: World)
    requires Run(w, trace, end)
    ensures w.history.keys <= end.history.keys && w.history.pairs <= end.history.pairs
    decreases trace
  {
    hide Next;
    if trace != [] {
      StepRemembers(w, trace[0]);
      RunRemembers(Next(w, trace[0]), trace[1..], end);
    }
  }

  /** No registration key is admitted twice in any run. */
  lemma KeyAdmittedOnce(w: World, a: Action, trace: seq<Action>, end: World, b: Action, key: Key)
    requires Reachable(end) && Enabled(w, a) && Run(Next(w, a), trace, end)
    requires AdmitsKey(w, a, key)
    ensures !AdmitsKey(end, b, key)
  {
    hide Reachable, Run, RegisterSucceeds, Register, ViewsSound, ObservationsSound, AcksSound, Inv;
    RunRemembers(Next(w, a), trace, end);
    ReachableSound(end);
    if AdmitsKey(end, b, key) { RegisterSound(end.reg, end.history, b.op.c, b.op.now); }
  }

  /** No (worker, plan) pair is admitted twice in any run. */
  lemma PairAdmittedOnce(w: World, a: Action, trace: seq<Action>, end: World, b: Action, worker: nat, plan: nat)
    requires Reachable(end) && Enabled(w, a) && Run(Next(w, a), trace, end)
    requires AdmitsPair(w, a, worker, plan)
    ensures !AdmitsPair(end, b, worker, plan)
  {
    hide Reachable, Run, PrepareSucceeds, Prepare, ViewsSound, ObservationsSound, AcksSound, Inv;
    RunRemembers(Next(w, a), trace, end);
    ReachableSound(end);
    if AdmitsPair(end, b, worker, plan) { PrepareSound(end.reg, end.history, b.op.plan, b.op.now); }
  }

  // ---- Going on from a reachable state ----

  lemma {:induction false} RunExtends(w: World, trace: seq<Action>, end: World, a: Action)
    requires Run(w, trace, end) && Enabled(end, a)
    ensures Run(w, trace + [a], Next(end, a))
    decreases trace
  {
    hide Next, Enabled;
    if trace == [] {
      assert [a][0] == a && [a][1..] == [];
      assert trace + [a] == [a];
      assert Run(Next(end, a), [], Next(end, a));
    } else {
      assert (trace + [a])[0] == trace[0] && (trace + [a])[1..] == trace[1..] + [a];
      RunExtends(Next(w, trace[0]), trace[1..], end, a);
    }
  }

  lemma ReachableOn(w: World, a: Action)
    requires Reachable(w) && Enabled(w, a)
    ensures Reachable(Next(w, a))
  {
    hide Next, Enabled, Run, Initial;
    var start, trace :| Initial(start) && Run(start, trace, w);
    RunExtends(start, trace, w, a);
  }

  /** A plan, once prepared, is never prepared differently under the same identity. */
  lemma PlansStay(w: World, a: Action, id: Identity)
    requires Reachable(w) && Enabled(w, a) && id in w.history.prepared
    ensures id in Next(w, a).history.prepared && Next(w, a).history.prepared[id] == w.history.prepared[id]
  {
    hide Reachable, Inv, ViewsSound, ObservationsSound, AcksSound, Apply, PrepareSucceeds, RegisterSucceeds,
      ObserveAck, Terminate, Adopt, ObserveRevocation, AdvanceStream, Select, ReleasePin;
    ReachableSound(w);
    if a.Host? && a.op.Write? { PrepareSound(w.reg, w.history, a.op.plan, a.op.now); }
  }
}
