/** What every step of the link keeps, and what follows for whole runs. */
module LinkSafety {
  import opened Octets
  import opened LinkLedger
  import opened Link

  // ---- The invariant, one part per concern ----

  /** The worker lanes: ordinals, and room for the one gap of the stream. */
  ghost predicate UpSound(cfg: Config, up: Up, w: Worker) {
    && Ordinals(up)
    && w.next == NextOrdinal(up)
    && up.data.Valid(cfg.workerData)
    && up.control.Valid(if w.gapWritten then cfg.workerControl else cfg.workerControl - RESERVED)
    && w.gapLatched == w.gapWritten
    && (w.gapLatched ==> w.fence != Open)
    && (w.active.Some? ==> w.fence == Open)
    && (forall j :: 0 <= j < |up.control.sent| && up.control.sent[j].Gap? ==> w.gapWritten)
    && (forall i, j :: 0 <= i < j < |up.control.sent| && up.control.sent[i].Gap? ==> !up.control.sent[j].Gap?)
  }

  /** While the host is open its ledger balances, and it never saw a discontinuity. */
  ghost predicate LedgerSound(cfg: Config, up: Up, h: Host) {
    && h.fence != Discontinuity
    && (h.fence == Open ==> Balanced(up, h.ledger, cfg.workerControl) && PollSound(up, h))
  }

  ghost predicate PollSound(up: Up, h: Host) {
    match h.pc
    case Idle => true
    case Sampled(head) => up.data.read <= head <= |up.data.sent| && (h.ledger.explained != [] ==> up.data.read < head)
    case Checked(head) =>
      && up.data.read <= head <= |up.data.sent|
      && (up.data.read < head ==> up.data.sent[up.data.read].ordinal == h.ledger.next)
  }

  /** The accepted ordinals are those of the data records read so far, in order. */
  ghost predicate AcceptedSound(up: Up, h: Host) {
    && |h.accepted| <= up.data.read <= |up.data.sent|
    && (h.fence == Open ==> |h.accepted| == up.data.read)
    && forall k :: 0 <= k < |h.accepted| ==> h.accepted[k] == up.data.sent[k].ordinal
  }

  ghost predicate PublishedBefore(sent: seq<HostRecord>, k: nat, ref: PlanRef) {
    exists i :: 0 <= i < k && i < |sent| && sent[i] == Publish(ref)
  }

  /** The host control lane: room for the one stop, one publication a plan, revocation after it. */
  ghost predicate DownSound(cfg: Config, lane: Fifo<HostRecord>, h: Host) {
    && lane.Valid(if h.stopSent then cfg.hostControl else cfg.hostControl - RESERVED)
    && (h.stopSent ==> h.fence != Open)
    && (forall k :: 0 <= k < |lane.sent| && lane.sent[k].Stop? ==> h.stopSent)
    && (forall i, k :: 0 <= i < k < |lane.sent| && lane.sent[i].Stop? ==> !lane.sent[k].Stop?)
    && (forall i :: 0 <= i < |lane.sent| && lane.sent[i].Publish? ==> lane.sent[i].ref.plan <= h.planFloor)
    && (forall i, k :: 0 <= i < k < |lane.sent| && lane.sent[i].Publish? && lane.sent[k].Publish? ==>
          lane.sent[i].ref.plan < lane.sent[k].ref.plan)
    && (forall k :: 0 <= k < |lane.sent| && lane.sent[k].Revoke? ==> PublishedBefore(lane.sent, k, lane.sent[k].ref))
    && (forall p :: p in h.plans ==> PublishedBefore(lane.sent, |lane.sent|, p.ref))
  }

  /** How many host control records the worker has handled. */
  function Handled(lane: Fifo<HostRecord>, w: Worker): nat {
    lane.read + if w.pc.Releasing? then 1 else 0
  }

  /** A usable plan has no handled revocation, and a handled stop left the worker fenced. */
  ghost predicate AdoptedSound(sent: seq<HostRecord>, handled: nat, w: Worker) {
    && handled <= |sent|
    && (forall i :: 0 <= i < |w.adopted| ==> w.adopted[i].ref.plan <= w.planFloor)
    && (forall i, k :: 0 <= i < k < |w.adopted| ==> w.adopted[i].ref.plan < w.adopted[k].ref.plan)
    && (forall i, k :: 0 <= i < |w.adopted| && !w.adopted[i].revoked && 0 <= k < handled ==>
          sent[k] != Revoke(w.adopted[i].ref))
    && (forall k :: 0 <= k < handled && sent[k].Stop? ==> w.fence != Open)
  }

  /** The budget always covers what the drain has to reach. */
  ghost predicate DrainSound(lane: Fifo<HostRecord>, w: Worker) {
    match w.pc
    case Ready => true
    case Draining(budget, snapshot, _) => snapshot <= |lane.sent| && snapshot <= lane.read + budget
    case Releasing(budget, snapshot, _) =>
      budget > 0 && lane.read < |lane.sent| && snapshot <= |lane.sent| && snapshot <= lane.read + budget
    case Drained(snapshot, _) => snapshot <= |lane.sent| && (w.fence == Open ==> snapshot <= lane.read)
  }

  /** No admission ignored a revocation of its plan, or a stop, published before its drain began. */
  ghost predicate LogSound(sent: seq<HostRecord>, log: seq<Admission>) {
    forall a :: a in log ==> AdmissionSound(sent, a)
  }

  ghost predicate AdmissionSound(sent: seq<HostRecord>, a: Admission) {
    && a.snapshot <= |sent|
    && forall k :: 0 <= k < a.snapshot ==> sent[k] != Stop && sent[k] != Revoke(a.command.ref)
  }

  ghost predicate TokensSound(lane: Fifo<Command>, tokens: seq<nat>, workerFloor: nat, hostFloor: nat) {
    && workerFloor <= hostFloor
    && (forall k :: 0 <= k < |lane.sent| ==> lane.sent[k].token <= hostFloor)
    && (forall i :: 0 <= i < |tokens| ==> tokens[i] <= workerFloor)
    && (forall i, k :: 0 <= i < k < |tokens| ==> tokens[i] < tokens[k])
  }

  ghost predicate Inv(s: System) {
    && s.cfg.Valid()
    && UpSound(s.cfg, s.up, s.worker)
    && LedgerSound(s.cfg, s.up, s.host)
    && AcceptedSound(s.up, s.host)
    && DownSound(s.cfg, s.hostControl, s.host)
    && AdoptedSound(s.hostControl.sent, Handled(s.hostControl, s.worker), s.worker)
    && DrainSound(s.hostControl, s.worker)
    && LogSound(s.hostControl.sent, s.log)
    && s.hostData.Valid(s.cfg.hostData)
    && TokensSound(s.hostData, s.tokens, s.worker.tokenFloor, s.host.tokenFloor)
  }

  lemma AttachSound(cfg: Config, planFloor: nat, workerTokenFloor: nat, hostTokenFloor: nat, tokens: seq<nat>)
    requires cfg.Valid() && workerTokenFloor <= hostTokenFloor
    requires forall i :: 0 <= i < |tokens| ==> tokens[i] <= workerTokenFloor
    requires forall i, k :: 0 <= i < k < |tokens| ==> tokens[i] < tokens[k]
    ensures Inv(Attach(cfg, planFloor, workerTokenFloor, hostTokenFloor, tokens))
  {
  }

  // ---- Worker steps ----

  /** What a worker step that posts at most one record does to the rest of the system. */
  ghost predicate UpOnly(s: System, t: System) {
    && t == s.(up := t.up, worker := t.worker)
    && t.worker == s.worker.(next := t.worker.next, fence := t.worker.fence, active := t.worker.active,
         gapLatched := t.worker.gapLatched, gapOrdinal := t.worker.gapOrdinal, gapWritten := t.worker.gapWritten)
    && (s.worker.fence != Open ==> t.worker.fence == s.worker.fence)
    && UpGrows(s.up, t.up)
  }

  ghost predicate UpGrows(a: Up, b: Up) {
    || b == a
    || (exists r: DataRecord :: b == PostData(a, r))
    || (exists r: ControlRecord :: b == PostControl(a, r))
  }

  /** The host side does not notice a worker post. */
  lemma PostUnnoticed(cfg: Config, a: Up, b: Up, h: Host)
    requires a.data.read <= |a.data.sent| && a.control.read <= |a.control.sent|
    requires UpGrows(a, b) && LedgerSound(cfg, a, h) && AcceptedSound(a, h)
    ensures LedgerSound(cfg, b, h) && AcceptedSound(b, h)
  {
    if b != a && h.fence == Open {
      PostKeepsBalance(a, b, h.ledger, cfg.workerControl);
    }
  }

  lemma FlushGapSound(s: System)
    requires s.cfg.Valid()
    requires var w := s.worker;
             && Ordinals(s.up) && s.up.data.Valid(s.cfg.workerData)
             && s.up.control.Valid(s.cfg.workerControl - RESERVED)
             && w.next == NextOrdinal(s.up) + 1 && w.gapOrdinal == NextOrdinal(s.up)
             && w.gapLatched && !w.gapWritten && w.fence != Open && w.active == None
             && forall j :: 0 <= j < |s.up.control.sent| ==> !s.up.control.sent[j].Gap?
    ensures UpSound(s.cfg, FlushGap(s).up, FlushGap(s).worker)
    ensures FlushGap(s) == s.(up := PostControl(s.up, Gap(s.worker.gapOrdinal)), worker := s.worker.(gapWritten := true))
  {
    PostControlKeepsOrdinals(s.up, Gap(s.worker.gapOrdinal));
  }

  /** A gap always finds its reserved slot, so it is written the moment it is raised. */
  lemma RaiseLocalGapSound(s: System, reason: Fence)
    requires s.cfg.Valid() && UpSound(s.cfg, s.up, s.worker) && reason != Open
    ensures var t := RaiseLocalGap(s, reason);
            UpOnly(s, t) && UpSound(t.cfg, t.up, t.worker) && t.worker.gapWritten && t.worker.fence != Open
  {
    if !s.worker.gapLatched {
      var w := CloseWorker(s.worker.(next := s.worker.next + 1), reason);
      FlushGapSound(s.(worker := w.(gapLatched := true, gapOrdinal := s.worker.next)));
    }
  }

  lemma WriteDataSound(s: System, record: DataRecord)
    requires s.cfg.Valid() && s.worker.next > 1 && s.worker.fence == Open
    requires UpSound(s.cfg, s.up, s.worker.(next := s.worker.next - 1)) && record.ordinal == s.worker.next - 1
    ensures var t := WriteData(s, record);
            UpSound(t.cfg, t.up, t.worker) && UpOnly(s, t)
  {
    if s.up.data.HasRoom(s.cfg.workerData, 0) {
      PostDataKeepsOrdinals(s.up, record);
    } else {
      var w := CloseWorker(s.worker, DataFull);
      FlushGapSound(s.(worker := w.(gapLatched := true, gapOrdinal := record.ordinal)));
    }
  }

  /** Loading a consumer index changes nothing that either side relies on. */
  lemma LoadUnnoticed(cfg: Config, a: Up, b: Up, w: Worker, h: Host)
    requires b == a.(control := b.control, data := b.data)
    requires b.control == a.control.(seen := b.control.seen) && a.control.seen <= b.control.seen <= a.control.read
    requires b.data == a.data.(seen := b.data.seen) && a.data.seen <= b.data.seen <= a.data.read
    requires UpSound(cfg, a, w) && LedgerSound(cfg, a, h) && AcceptedSound(a, h)
    ensures UpSound(cfg, b, w) && LedgerSound(cfg, b, h) && AcceptedSound(b, h)
  {
    assert forall o :: 0 <= o < |a.home| ==> (Housed(b, o) <==> Housed(a, o));
    assert forall o :: 1 <= o <= |a.home| ==> (Consumed(b, o) <==> Consumed(a, o));
  }

  lemma LoadUpSound(s: System, c: nat, d: nat)
    requires Inv(s)
    ensures Inv(LoadUp(s, c, d))
  {
    LoadUnnoticed(s.cfg, s.up, LoadUp(s, c, d).up, s.worker, s.host);
  }

  lemma LoadDownSound(s: System, c: nat, d: nat)
    requires Inv(s)
    ensures Inv(LoadDown(s, c, d))
  {
    hide UpSound, LedgerSound, AcceptedSound, LogSound, AdoptedSound;
  }

  /** A worker step that only posts keeps the whole invariant. */
  lemma PostSound(s: System, t: System)
    requires Inv(s) && UpOnly(s, t) && UpSound(t.cfg, t.up, t.worker)
    ensures Inv(t)
  {
    PostUnnoticed(s.cfg, s.up, t.up, s.host);
  }

  lemma ObserveSound(s: System, octet: byte, selection: Option<Command>)
    requires Inv(s)
    ensures Inv(ObserveRaw(s, octet, selection))
  {
    var w := s.worker;
    if w.pc == Ready && w.fence == Open && (selection.None? || selection == w.active) {
      var numbered := s.(worker := w.(next := w.next + 1));
      WriteDataSound(numbered, Raw(w.next, octet, selection));
      PostSound(s, ObserveRaw(s, octet, selection));
    }
  }

  lemma CompleteSound(s: System, command: Command, now: nat)
    requires Inv(s)
    ensures Inv(Complete(s, command, now))
  {
    var w := s.worker;
    if w.pc == Ready && w.active == Some(command) {
      if command.Live(now) {
        var numbered := s.(worker := w.(next := w.next + 1, active := None));
        WriteDataSound(numbered, Completion(w.next, command));
      }
      PostSound(s, Complete(s, command, now));
    }
  }

  lemma WorkerFaultSound(s: System, reason: Fence)
    requires Inv(s) && reason != Open
    ensures Inv(RaiseLocalGap(s, reason))
  {
    RaiseLocalGapSound(s, reason);
    PostSound(s, RaiseLocalGap(s, reason));
  }

  lemma PostRetiredSound(s: System, ref: PlanRef)
    requires s.cfg.Valid() && UpSound(s.cfg, s.up, s.worker)
    ensures var (t, ok) := PostRetired(s, ref);
            UpOnly(s, t) && UpSound(t.cfg, t.up, t.worker) && (!ok ==> t.worker.fence != Open)
  {
    if s.up.control.HasRoom(s.cfg.workerControl, RESERVED) {
      PostControlKeepsOrdinals(s.up, Acknowledge(s.worker.next, ref));
    } else {
      RaiseLocalGapSound(s, ControlSaturated);
    }
  }

  // ---- The drain ----

  /** Plans are published once, so nothing revoked a plan before its publication. */
  lemma NotRevokedYet(cfg: Config, lane: Fifo<HostRecord>, h: Host, at: nat)
    requires DownSound(cfg, lane, h) && at < |lane.sent| && lane.sent[at].Publish?
    ensures forall k :: 0 <= k < at ==> lane.sent[k] != Revoke(lane.sent[at].ref)
  {
    var ref := lane.sent[at].ref;
    forall k | 0 <= k < at
      ensures lane.sent[k] != Revoke(ref)
    {
      assert lane.sent[k].Revoke? ==> PublishedBefore(lane.sent, k, lane.sent[k].ref);
    }
  }

  lemma HandleStopSound(sent: seq<HostRecord>, at: nat, w: Worker)
    requires at < |sent| && sent[at] == Stop && AdoptedSound(sent, at, w)
    ensures AdoptedSound(sent, at + 1, CloseWorker(w, Stopped))
  {
  }

  lemma MarkRevokedSound(sent: seq<HostRecord>, at: nat, w: Worker, i: nat)
    requires at < |sent| && sent[at].Revoke? && AdoptedSound(sent, at, w)
    requires i < |w.adopted| && w.adopted[i].ref == sent[at].ref
    ensures AdoptedSound(sent, at + 1, w.(adopted := w.adopted[i := Adopted(sent[at].ref, true)]))
  {
  }

  lemma AdoptSound(sent: seq<HostRecord>, at: nat, w: Worker)
    requires at < |sent| && sent[at].Publish? && AdoptedSound(sent, at, w)
    requires forall k :: 0 <= k < at ==> sent[k] != Revoke(sent[at].ref)
    requires sent[at].ref.plan > w.planFloor
    ensures AdoptedSound(sent, at + 1,
              w.(planFloor := sent[at].ref.plan, adopted := w.adopted + [Adopted(sent[at].ref, false)]))
  {
  }

  /** What handling one host control record gives: the worker half is sound one record further. */
  ghost predicate HandledOne(s: System, t: System, ok: bool) {
    && t == s.(up := t.up, worker := t.worker)
    && UpGrows(s.up, t.up)
    && UpSound(t.cfg, t.up, t.worker)
    && t.worker.pc == s.worker.pc && t.worker.tokenFloor == s.worker.tokenFloor
    && (s.worker.fence != Open ==> t.worker.fence == s.worker.fence)
    && (if ok then AdoptedSound(s.hostControl.sent, s.hostControl.read + 1, t.worker)
        else AdoptedSound(s.hostControl.sent, s.hostControl.read, t.worker) && t.worker.fence != Open)
  }

  lemma HandleRevokeSound(s: System, ref: PlanRef)
    requires Inv(s) && s.worker.pc.Draining? && !s.hostControl.Empty()
    requires s.hostControl.sent[s.hostControl.read] == Revoke(ref)
    ensures HandledOne(s, HandleRevoke(s, ref).0, HandleRevoke(s, ref).1)
  {
    hide Ordinals, LedgerSound, AcceptedSound, DownSound, LogSound, TokensSound, DrainSound, PostRetired, PostControl;
    var i := FindAdopted(s.worker.adopted, ref);
    if i < |s.worker.adopted| {
      MarkRevokedSound(s.hostControl.sent, s.hostControl.read, s.worker, i);
    } else if ref in s.worker.refused {
      hide UpSound, AdoptedSound, HandledOne;
      RefusedRevokeSound(s, ref);
    }
  }

  /** Revoking a publication the worker refused only posts its retirement. */
  lemma RefusedRevokeSound(s: System, ref: PlanRef)
    requires Inv(s) && s.worker.pc.Draining? && !s.hostControl.Empty()
    requires s.hostControl.sent[s.hostControl.read] == Revoke(ref)
    requires FindAdopted(s.worker.adopted, ref) == |s.worker.adopted| && ref in s.worker.refused
    ensures HandledOne(s, HandleRevoke(s, ref).0, HandleRevoke(s, ref).1)
  {
    hide Ordinals, LedgerSound, AcceptedSound, DownSound, LogSound, TokensSound, DrainSound, PostRetired, PostControl, UpGrows;
    PostRetiredSound(s, ref);
  }

  lemma HandlePublishSound(s: System, ref: PlanRef, now: nat)
    requires Inv(s) && s.worker.pc.Draining? && !s.hostControl.Empty()
    requires s.hostControl.sent[s.hostControl.read] == Publish(ref)
    ensures HandledOne(s, HandlePublish(s, ref, now), true)
  {
    hide Ordinals, LedgerSound, AcceptedSound, DownSound, LogSound, TokensSound, DrainSound, RaiseLocalGap, PostControl;
    var w := s.worker;
    if w.fence == Open {
      if ref.plan <= w.planFloor || now >= ref.expiry || |w.adopted| == s.cfg.maxPlans {
        if |w.refused| >= s.cfg.maxPlans {
          RaiseLocalGapSound(s, ControlSaturated);
        }
      } else {
        NotRevokedYet(s.cfg, s.hostControl, s.host, s.hostControl.read);
        AdoptSound(s.hostControl.sent, s.hostControl.read, w);
      }
    }
  }

  lemma HandleSound(s: System, now: nat)
    requires Inv(s) && s.worker.pc.Draining? && !s.hostControl.Empty()
    ensures var (t, ok) := HandleHostControl(s, s.hostControl.sent[s.hostControl.read], now);
            HandledOne(s, t, ok)
  {
    match s.hostControl.sent[s.hostControl.read]
    case Stop => HandleStopSound(s.hostControl.sent, s.hostControl.read, s.worker);
    case Revoke(ref) => HandleRevokeSound(s, ref);
    case Publish(ref) => HandlePublishSound(s, ref, now);
  }

  lemma DrainOneSound(s: System, now: nat)
    requires Inv(s)
    ensures Inv(DrainOne(s, now))
  {
    hide Ordinals, LedgerSound, AcceptedSound, LogSound, TokensSound;
    if s.worker.pc.Draining? && s.worker.pc.budget > 0 && !s.hostControl.Empty() {
      HandleSound(s, now);
      var (t, ok) := HandleHostControl(s, s.hostControl.sent[s.hostControl.read], now);
      hide HandleHostControl;
      PostUnnoticed(s.cfg, s.up, t.up, s.host);
    }
  }

  lemma ReleaseControlSound(s: System)
    requires Inv(s)
    ensures Inv(ReleaseControl(s))
  {
    hide Ordinals, LedgerSound, AcceptedSound, LogSound, TokensSound;
  }

  // ---- The end of a worker call ----

  /** A plan found usable has no handled revocation. */
  lemma UsableUnrevoked(sent: seq<HostRecord>, handled: nat, w: Worker, ref: PlanRef)
    requires AdoptedSound(sent, handled, w) && PlanUsable(w, ref)
    ensures forall k :: 0 <= k < handled ==> sent[k] != Revoke(ref)
  {
  }

  /** Once the drain is over and the worker is still open, an admission is sound. */
  lemma AdmissionFits(s: System, command: Command)
    requires Inv(s) && s.worker.pc.Drained? && s.worker.fence == Open && PlanUsable(s.worker, command.ref)
    ensures AdmissionSound(s.hostControl.sent, Admission(command, s.worker.pc.snapshot))
  {
    UsableUnrevoked(s.hostControl.sent, s.hostControl.read, s.worker, command.ref);
  }

  lemma TakeCommandSound(s: System, now: nat)
    requires Inv(s) && s.worker.pc.Drained?
    ensures Inv(TakeCommand(s, s.worker.pc.snapshot, now))
  {
    hide Ordinals, LedgerSound, AcceptedSound, DownSound, PlanUsable;
    var w := s.worker;
    if w.fence == Open && !s.hostData.Empty() {
      var command := s.hostData.sent[s.hostData.read];
      if PlanUsable(w, command.ref) {
        AdmissionFits(s, command);
      }
    }
  }

  lemma AdmitSymbolSound(s: System, command: Command, now: nat)
    requires Inv(s) && s.worker.pc.Drained?
    ensures Inv(AdmitSymbol(s, command, s.worker.pc.snapshot, now))
  {
    hide Ordinals, LedgerSound, AcceptedSound, DownSound, PlanUsable, TokensSound;
    if s.worker.fence == Open && PlanUsable(s.worker, command.ref) {
      AdmissionFits(s, command);
    }
  }

  lemma ForgetSound(sent: seq<HostRecord>, handled: nat, w: Worker, i: nat)
    requires AdoptedSound(sent, handled, w) && i < |w.adopted|
    ensures AdoptedSound(sent, handled, w.(adopted := w.adopted[..i] + w.adopted[i + 1..]))
  {
  }

  /** Forgetting an adopted plan breaks nothing. */
  lemma ForgetKeeps(s: System, i: nat)
    requires Inv(s) && i < |s.worker.adopted|
    ensures Inv(s.(worker := s.worker.(adopted := s.worker.adopted[..i] + s.worker.adopted[i + 1..])))
  {
    hide Ordinals, LedgerSound, AcceptedSound, DownSound, LogSound, TokensSound, AdoptedSound;
    ForgetSound(s.hostControl.sent, Handled(s.hostControl, s.worker), s.worker, i);
  }

  lemma AcknowledgeRevokedSound(s: System, ref: PlanRef)
    requires Inv(s)
    ensures Inv(AcknowledgeRevoked(s, ref))
  {
    hide Inv, PostRetired, UpSound, UpGrows;
    var w := s.worker;
    var i := FindAdopted(w.adopted, ref);
    if i < |w.adopted| && w.adopted[i].revoked {
      LanesOf(s);
      PostRetiredSound(s, ref);
      var (t, ok) := PostRetired(s, ref);
      PostSound(s, t);
      if ok {
        ForgetKeeps(t, i);
      }
    }
  }

  lemma LanesOf(s: System)
    requires Inv(s)
    ensures s.cfg.Valid() && UpSound(s.cfg, s.up, s.worker)
  {
  }

  lemma ReadySound(s: System)
    requires Inv(s) && s.worker.pc.Drained?
    ensures Inv(SetPc(s, Ready))
  {
  }

  lemma FinishCallSound(s: System, now: nat)
    requires Inv(s)
    ensures Inv(FinishCall(s, now))
  {
    hide Inv, TakeCommand, AdmitSymbol, AcknowledgeRevoked;
    match s.worker.pc
    case Drained(snapshot, goal) =>
      match goal {
        case PollOnly => ReadySound(s);
        case NextCommand =>
          TakeCommandSound(s, now);
          TakeCommandKeepsPc(s, snapshot, now);
          ReadySound(TakeCommand(s, snapshot, now));
        case AdmitOutput(command) =>
          AdmitSymbolSound(s, command, now);
          AdmitSymbolKeepsPc(s, command, snapshot, now);
          ReadySound(AdmitSymbol(s, command, snapshot, now));
        case AcknowledgeRevocation(ref) =>
          AcknowledgeRevokedSound(s, ref);
          AcknowledgeKeepsPc(s, ref);
          ReadySound(AcknowledgeRevoked(s, ref));
      }
    case _ =>
  }

  lemma TakeCommandKeepsPc(s: System, snapshot: nat, now: nat)
    ensures TakeCommand(s, snapshot, now).worker.pc == s.worker.pc
  {
  }

  lemma AdmitSymbolKeepsPc(s: System, command: Command, snapshot: nat, now: nat)
    ensures AdmitSymbol(s, command, snapshot, now).worker.pc == s.worker.pc
  {
  }

  lemma AcknowledgeKeepsPc(s: System, ref: PlanRef)
    ensures AcknowledgeRevoked(s, ref).worker.pc == s.worker.pc
  {
  }

  // ---- Host steps ----

  /** The worker half and the log do not notice a record appended to the host control lane. */
  lemma AppendUnnoticed(lane: Fifo<HostRecord>, record: HostRecord, w: Worker, log: seq<Admission>)
    requires lane.read <= |lane.sent|
    requires AdoptedSound(lane.sent, Handled(lane, w), w) && DrainSound(lane, w) && LogSound(lane.sent, log)
    ensures var after := lane.Send(record);
            AdoptedSound(after.sent, Handled(after, w), w) && DrainSound(after, w) && LogSound(after.sent, log)
  {
    forall a | a in log
      ensures AdmissionSound(lane.Send(record).sent, a)
    {
      assert AdmissionSound(lane.sent, a);
    }
  }

  lemma PublishedGrows(lane: Fifo<HostRecord>, record: HostRecord)
    ensures forall k: nat, ref :: k <= |lane.sent| && PublishedBefore(lane.sent, k, ref) ==> PublishedBefore(lane.Send(record).sent, k, ref)
    ensures forall ref :: PublishedBefore(lane.sent, |lane.sent|, ref) ==>
              PublishedBefore(lane.Send(record).sent, |lane.sent| + 1, ref)
  {
    var after := lane.Send(record).sent;
    forall k: nat, ref | k <= |lane.sent| && PublishedBefore(lane.sent, k, ref)
      ensures PublishedBefore(after, k, ref) && PublishedBefore(after, |lane.sent| + 1, ref)
    {
      var i :| 0 <= i < k && i < |lane.sent| && lane.sent[i] == Publish(ref);
      assert after[i] == Publish(ref);
    }
  }

  /** Closing the host, for any reason but a discontinuity, keeps everything. */
  lemma CloseHostSound(s: System, reason: Fence)
    requires Inv(s) && reason != Open && reason != Discontinuity
    ensures Inv(s.(host := CloseHost(s.host, reason)))
  {
    hide UpSound, AdoptedSound, DrainSound, LogSound, TokensSound;
  }

  lemma PublishLaneSound(cfg: Config, lane: Fifo<HostRecord>, h: Host, ref: PlanRef)
    requires DownSound(cfg, lane, h) && h.fence == Open && ref.plan > h.planFloor
    requires lane.HasRoom(cfg.hostControl, RESERVED)
    ensures DownSound(cfg, lane.Send(Publish(ref)), h.(planFloor := ref.plan, plans := h.plans + [HostPlan(ref, false)]))
  {
    PublishedGrows(lane, Publish(ref));
    var after := lane.Send(Publish(ref)).sent;
    assert after[|lane.sent|] == Publish(ref);
    assert PublishedBefore(after, |after|, ref);
  }

  lemma PublishPlanSound(s: System, ref: PlanRef, now: nat)
    requires Inv(s)
    ensures Inv(PublishPlan(s, ref, now))
  {
    hide UpSound, AdoptedSound, DrainSound, LogSound, TokensSound, DownSound;
    CloseHostSound(s, ControlSaturated);
    if s.host.fence == Open && ref.plan > s.host.planFloor && s.hostControl.HasRoom(s.cfg.hostControl, RESERVED) {
      LaneBounds(s);
      AppendUnnoticed(s.hostControl, Publish(ref), s.worker, s.log);
      PublishLaneSound(s.cfg, s.hostControl, s.host, ref);
    }
  }

  lemma LaneBounds(s: System)
    requires Inv(s)
    ensures s.hostControl.read <= |s.hostControl.sent|
    ensures s.up.data.read <= |s.up.data.sent| && s.up.control.read <= |s.up.control.sent|
  {
  }

  lemma RevokeLaneSound(cfg: Config, lane: Fifo<HostRecord>, h: Host, i: nat)
    requires DownSound(cfg, lane, h) && i < |h.plans| && !h.plans[i].revoking
    requires lane.HasRoom(cfg.hostControl, RESERVED)
    ensures DownSound(cfg, lane.Send(Revoke(h.plans[i].ref)), h.(plans := h.plans[i := HostPlan(h.plans[i].ref, true)]))
  {
    var ref := h.plans[i].ref;
    assert h.plans[i] in h.plans;
    PublishedGrows(lane, Revoke(ref));
    assert PublishedBefore(lane.sent, |lane.sent|, ref);
  }

  lemma RevokePlanSound(s: System, ref: PlanRef)
    requires Inv(s)
    ensures Inv(RevokePlan(s, ref))
  {
    hide UpSound, AdoptedSound, DrainSound, LogSound, TokensSound, DownSound;
    CloseHostSound(s, ControlSaturated);
    var i := FindPlan(s.host.plans, ref);
    if i < |s.host.plans| && !s.host.plans[i].revoking && s.hostControl.HasRoom(s.cfg.hostControl, RESERVED) {
      LaneBounds(s);
      AppendUnnoticed(s.hostControl, Revoke(ref), s.worker, s.log);
      RevokeLaneSound(s.cfg, s.hostControl, s.host, i);
    }
  }

  lemma SendCommandSound(s: System, command: Command, now: nat)
    requires Inv(s)
    ensures Inv(SendCommand(s, command, now))
  {
    hide UpSound, AdoptedSound, DrainSound, LogSound, LedgerSound, AcceptedSound;
    HostFloorIrrelevant(s.cfg, s.up, s.host, SendCommand(s, command, now).host);
  }

  lemma HostFloorIrrelevant(cfg: Config, up: Up, h: Host, g: Host)
    requires g == h.(tokenFloor := g.tokenFloor)
    requires LedgerSound(cfg, up, h) && AcceptedSound(up, h)
    ensures LedgerSound(cfg, up, g) && AcceptedSound(up, g)
  {
  }

  /** The stop always finds its reserved slot. */
  lemma SendStopSound(s: System)
    requires Inv(s) && s.host.fence != Open
    ensures Inv(SendStop(s)) && SendStop(s).host.stopSent
  {
    hide UpSound, AdoptedSound, DrainSound, LogSound, TokensSound;
    if !s.host.stopSent {
      AppendUnnoticed(s.hostControl, Stop, s.worker, s.log);
      PublishedGrows(s.hostControl, Stop);
    }
  }

  lemma RequestStopSound(s: System)
    requires Inv(s)
    ensures Inv(RequestStop(s))
  {
    hide Inv, SendStop;
    CloseHostSound(s, Stopped);
    SendStopSound(s.(host := CloseHost(s.host, Stopped)));
  }

  // ---- Polling ----

  lemma SampleHeadSound(s: System)
    requires Inv(s)
    ensures Inv(SampleHead(s))
  {
    hide AdoptedSound, DrainSound, LogSound, TokensSound;
    if s.host.fence == Open && s.host.ledger.explained != [] {
      BoundaryIsData(s.up, s.host.ledger, s.cfg.workerControl);
    }
  }

  /** The only record the host meets while open and not fenced by it is accounted without a fault. */
  lemma ControlAccounted(s: System)
    requires Inv(s) && s.host.fence == Open && s.host.pc.Sampled?
    requires !s.up.control.Empty() && !DataFirst(s, s.host.pc.head)
    ensures var l := Account(s.host.ledger, s.up.control.sent[s.up.control.read].ordinal, true, s.cfg.workerControl);
            l.0 && Balanced(s.up.(control := s.up.control.Release()), l.1, s.cfg.workerControl)
  {
    var l, up, cap := s.host.ledger, s.up, s.cfg.workerControl;
    var o := up.control.sent[up.control.read].ordinal;
    NextControlNotBehind(up, l, cap);
    if o == l.next {
      AccountBoundary(up, up.(control := up.control.Release()), l, true, cap);
    } else {
      AccountEarly(up, up.(control := up.control.Release()), l, cap);
    }
  }

  lemma DropPlanSound(cfg: Config, lane: Fifo<HostRecord>, h: Host, g: Host)
    requires DownSound(cfg, lane, h)
    requires forall p :: p in g.plans ==> p in h.plans
    requires g.stopSent == h.stopSent && g.planFloor == h.planFloor && (g.fence == Open ==> h.fence == Open)
    ensures DownSound(cfg, lane, g)
  {
  }

  /** What taking a control record does to the host: books kept, or closed for a proper reason. */
  ghost predicate TookControl(s: System, g: Host) {
    && (forall p :: p in g.plans ==> p in s.host.plans)
    && g.stopSent == s.host.stopSent && g.planFloor == s.host.planFloor && g.tokenFloor == s.host.tokenFloor
    && g.accepted == s.host.accepted
    && (g.fence == Open ==> s.host.fence == Open) && g.fence != Discontinuity
    && (g.fence == Open ==> Balanced(s.up.(control := s.up.control.Release()), g.ledger, s.cfg.workerControl))
  }

  lemma HandleControlSound(s: System, regressed: bool)
    requires Inv(s) && !s.up.control.Empty()
    requires s.host.fence == Open ==> s.host.pc.Sampled? && !DataFirst(s, s.host.pc.head)
    ensures TookControl(s, HandleControl(s, s.host, s.up.control.sent[s.up.control.read], regressed))
  {
    hide Balanced, UpSound, AdoptedSound, DrainSound, LogSound, TokensSound, DownSound, Account;
    if s.host.fence == Open {
      ControlAccounted(s);
    }
  }

  lemma TakeControlSound(s: System, regressed: bool)
    requires Inv(s) && !s.up.control.Empty()
    requires s.host.fence == Open ==> s.host.pc.Sampled? && !DataFirst(s, s.host.pc.head)
    ensures Inv(TakeControl(s, regressed))
  {
    hide Balanced, AdoptedSound, DrainSound, LogSound, TokensSound, DownSound, HandleControl;
    HandleControlSound(s, regressed);
    var g := HandleControl(s, s.host, s.up.control.sent[s.up.control.read], regressed);
    DropPlanSound(s.cfg, s.hostControl, s.host, SetHostPc(g, Idle));
    ReadKeepsOrdinals(s.up, s.up.(control := s.up.control.Release()));
  }

  lemma ReadKeepsOrdinals(a: Up, b: Up)
    requires Ordinals(a) && b.home == a.home
    requires b.control.sent == a.control.sent && b.data.sent == a.data.sent
    ensures Ordinals(b)
  {
    assert forall o :: 0 <= o < |a.home| ==> (Housed(b, o) <==> Housed(a, o));
  }

  /** Having found no control record, or drained data first, the host meets the boundary next. */
  lemma PollControlSound(s: System, regressed: bool)
    requires Inv(s)
    ensures Inv(PollControl(s, regressed))
  {
    hide AdoptedSound, DrainSound, LogSound, TokensSound, TakeControl, Balanced;
    match s.host.pc
    case Sampled(head) =>
      if DataFirst(s, head) || s.up.control.Empty() {
        if s.host.fence == Open && s.up.data.read < head {
          BoundaryIsData(s.up, s.host.ledger, s.cfg.workerControl);
        }
      } else {
        TakeControlSound(s, regressed);
      }
    case _ =>
  }

  lemma DataAccounted(s: System)
    requires Inv(s) && s.host.fence == Open && s.host.pc.Checked? && s.up.data.read < s.host.pc.head
    ensures s.up.data.read < |s.up.data.sent|
    ensures s.up.data.sent[s.up.data.read].ordinal == s.host.ledger.next
    ensures var l := Account(s.host.ledger, s.up.data.sent[s.up.data.read].ordinal, false, s.cfg.workerControl);
            l.0 && Balanced(s.up.(data := s.up.data.Release()), l.1, s.cfg.workerControl)
  {
    AccountBoundary(s.up, s.up.(data := s.up.data.Release()), s.host.ledger, false, s.cfg.workerControl);
  }

  lemma PollDataSound(s: System, regressed: bool)
    requires Inv(s)
    ensures Inv(PollData(s, regressed))
  {
    hide AdoptedSound, DrainSound, LogSound, TokensSound, DownSound, Balanced, Ordinals, Account;
    match s.host.pc
    case Checked(head) =>
      if s.up.data.read < head && !s.up.data.Empty() {
        if s.host.fence == Open {
          DataAccounted(s);
        }
        var g := HandleData(s, s.host, s.up.data.sent[s.up.data.read], regressed);
        DropPlanSound(s.cfg, s.hostControl, s.host, SetHostPc(g, Idle));
        ReadKeepsOrdinals(s.up, s.up.(data := s.up.data.Release()));
      } else {
        DropPlanSound(s.cfg, s.hostControl, s.host, SetHostPc(s.host, Idle));
      }
    case _ =>
  }

  lemma PollFencedSound(s: System)
    requires Inv(s)
    ensures Inv(PollFenced(s))
  {
    if s.host.fence != Open && s.host.pc == Idle && !s.up.control.Empty() {
      TakeControlSound(s, false);
    }
  }

  lemma StartCallSound(s: System, goal: Goal)
    requires Inv(s)
    ensures Inv(StartCall(s, goal))
  {
    hide Ordinals, LedgerSound, AcceptedSound, LogSound, TokensSound;
  }

  lemma SuccessorSound(s: System, cfg: Config)
    requires Inv(s)
    ensures Inv(Next(s, Successor(cfg)))
  {
    if cfg.Valid() {
      AttachSound(cfg, Max(s.worker.planFloor, s.host.planFloor), Max(s.worker.tokenFloor, s.host.tokenFloor),
                  s.host.tokenFloor, s.tokens);
    }
  }

  // ---- Every run ----

  /** Every step of either side keeps the invariant. */
  lemma StepSound(s: System, a: Action)
    requires Inv(s)
    ensures Inv(Next(s, a))
  {
    hide Inv, ObserveRaw, Complete, RaiseLocalGap, StartCall, DrainOne, ReleaseControl, FinishCall, PublishPlan,
         RevokePlan, SendCommand, SendStop, RequestStop, PollControl, PollData, PollFenced, LoadUp, LoadDown, SampleHead;
    match a
    case WRaw(octet, selection, c, d) => LoadUpSound(s, c, d); ObserveSound(LoadUp(s, c, d), octet, selection);
    case WComplete(command, now, c, d) => LoadUpSound(s, c, d); CompleteSound(LoadUp(s, c, d), command, now);
    case WFault(reason, c) =>
      LoadUpSound(s, c, 0);
      if reason != Open {
        WorkerFaultSound(LoadUp(s, c, 0), reason);
      }
    case WStart(goal) => StartCallSound(s, goal);
    case WDrain(now, c) => LoadUpSound(s, c, 0); DrainOneSound(LoadUp(s, c, 0), now);
    case WRelease => ReleaseControlSound(s);
    case WFinish(now, c) => LoadUpSound(s, c, 0); FinishCallSound(LoadUp(s, c, 0), now);
    case HPublish(ref, now, c) => LoadDownSound(s, c, 0); PublishPlanSound(LoadDown(s, c, 0), ref, now);
    case HRevoke(ref, c) => LoadDownSound(s, c, 0); RevokePlanSound(LoadDown(s, c, 0), ref);
    case HSend(command, now, d) => LoadDownSound(s, 0, d); SendCommandSound(LoadDown(s, 0, d), command, now);
    case HStop(c) => LoadDownSound(s, c, 0); RequestStopSound(LoadDown(s, c, 0));
    case HAcknowledgeGap(c) =>
      LoadDownSound(s, c, 0);
      if LoadDown(s, c, 0).host.fence != Open {
        SendStopSound(LoadDown(s, c, 0));
      }
    case HFault(reason) =>
      if reason != Open && reason != Discontinuity {
        CloseHostSound(s, reason);
      }
    case HSample => SampleHeadSound(s);
    case HPollControl(regressed) => PollControlSound(s, regressed);
    case HPollData(regressed) => PollDataSound(s, regressed);
    case HPollFenced => PollFencedSound(s);
    case Successor(cfg) => SuccessorSound(s, cfg);
  }

  lemma {:induction false} RunSound(s: System, actions: seq<Action>)
    requires Inv(s)
    ensures Inv(Run(s, actions))
  {
    hide Inv, Next;
    if actions != [] {
      RunSound(s, actions[..|actions| - 1]);
      StepSound(Run(s, actions[..|actions| - 1]), actions[|actions| - 1]);
    }
  }

  /** Reached from a fresh mapping by some run of both endpoints, across any number of successors. */
  ghost predicate Reachable(s: System) {
    exists cfg: Config, planFloor: nat, tokenFloor: nat, actions: seq<Action> ::
      cfg.Valid() && s == Run(Attach(cfg, planFloor, tokenFloor, tokenFloor, []), actions)
  }

  lemma ReachableSound(s: System)
    requires Reachable(s)
    ensures Inv(s)
  {
    hide Inv, Run, Attach;
    var cfg: Config, planFloor: nat, tokenFloor: nat, actions: seq<Action> :|
      cfg.Valid() && s == Run(Attach(cfg, planFloor, tokenFloor, tokenFloor, []), actions);
    AttachSound(cfg, planFloor, tokenFloor, tokenFloor, []);
    RunSound(Attach(cfg, planFloor, tokenFloor, tokenFloor, []), actions);
  }

  /** In no interleaving does control overtaking data make the host see a discontinuity. */
  lemma NoFalseDiscontinuity(s: System)
    requires Reachable(s)
    ensures s.host.fence != Discontinuity
  {
    ReachableSound(s);
  }

  /**
    The host takes a data record only when it is open and every smaller ordinal has been read, once:
    no other record carries the same ordinal.
    */
  lemma AcceptsInOrder(s: System, a: Action)
    requires Reachable(s) && !a.Successor? && Next(s, a).host.accepted != s.host.accepted
    ensures s.host.fence == Open && s.up.data.read < |s.up.data.sent|
    ensures var d := s.up.data.sent[s.up.data.read].ordinal;
            && Next(s, a).host.accepted == s.host.accepted + [d]
            && 1 <= d <= |s.up.home| && !Consumed(s.up, d)
            && (forall o {:trigger Consumed(s.up, o)} :: 1 <= o < d ==> Consumed(s.up, o))
            && (forall i :: 0 <= i < |s.up.data.sent| && s.up.data.sent[i].ordinal == d ==> i == s.up.data.read)
            && (forall j :: 0 <= j < |s.up.control.sent| ==> s.up.control.sent[j].ordinal != d)
  {
    ReachableSound(s);
    OnlyPollDataAccepts(s, a);
    DataAccounted(s);
    assert !Consumed(s.up, s.host.ledger.next);
  }

  lemma OnlyPollDataAccepts(s: System, a: Action)
    requires !a.Successor? && Next(s, a).host.accepted != s.host.accepted
    ensures a.HPollData? && s.host.pc.Checked? && s.host.fence == Open && s.up.data.read < s.host.pc.head
    ensures !s.up.data.Empty()
    ensures Next(s, a).host.accepted == s.host.accepted + [s.up.data.sent[s.up.data.read].ordinal]
  {
    hide Next;
    if IsWorkerAction(a) {
      WorkerLeavesHost(s, a);
    } else if !a.HPollData? {
      OthersAcceptNothing(s, a);
    } else {
      PollAccepts(s, a);
    }
  }

  lemma PollAccepts(s: System, a: Action)
    requires a.HPollData? && Next(s, a).host.accepted != s.host.accepted
    ensures s.host.pc.Checked? && s.host.fence == Open && s.up.data.read < s.host.pc.head
    ensures !s.up.data.Empty()
    ensures Next(s, a).host.accepted == s.host.accepted + [s.up.data.sent[s.up.data.read].ordinal]
  {
  }

  lemma OthersAcceptNothing(s: System, a: Action)
    requires !IsWorkerAction(a) && !a.HPollData? && !a.Successor?
    ensures Next(s, a).host.accepted == s.host.accepted
  {
  }

  /** The worker part of a step on a fenced worker: same fence, same data records. */
  ghost predicate Quiet(s: System, t: System) {
    t.worker.fence == s.worker.fence && t.up.data.sent == s.up.data.sent && t.host == s.host
  }

  lemma GapQuiet(s: System, reason: Fence)
    requires s.worker.fence != Open
    ensures Quiet(s, RaiseLocalGap(s, reason))
  {
  }

  lemma HandleQuiet(s: System, record: HostRecord, now: nat)
    requires s.worker.fence != Open
    ensures Quiet(s, HandleHostControl(s, record, now).0)
  {
    GapQuiet(s, ControlSaturated);
  }

  lemma CallQuiet(s: System, now: nat)
    requires s.worker.fence != Open
    ensures Quiet(s, DrainOne(s, now)) && Quiet(s, FinishCall(s, now)) && Quiet(s, ReleaseControl(s))
  {
    hide HandleHostControl, RaiseLocalGap;
    GapQuiet(s, ControlSaturated);
    if !s.hostControl.Empty() {
      HandleQuiet(s, s.hostControl.sent[s.hostControl.read], now);
    }
  }

  /** A fence never reopens, and a fenced worker writes no further data record. */
  lemma WorkerFenceIsFinal(s: System, a: Action)
    requires Reachable(s) && !a.Successor? && s.worker.fence != Open
    ensures Next(s, a).worker.fence == s.worker.fence && Next(s, a).up.data.sent == s.up.data.sent
  {
    hide Inv, Run, HandleHostControl, RaiseLocalGap, DrainOne, FinishCall, HandleControl, HandleData;
    ReachableSound(s);
    ActiveMeansOpen(s);
    match a
    case WFault(reason, c) => GapQuiet(LoadUp(s, c, 0), reason);
    case WDrain(now, c) => CallQuiet(LoadUp(s, c, 0), now);
    case WFinish(now, c) => CallQuiet(LoadUp(s, c, 0), now);
    case _ =>
  }

  lemma ActiveMeansOpen(s: System)
    requires Inv(s)
    ensures s.worker.active.Some? ==> s.worker.fence == Open
  {
  }

  lemma HostFenceIsFinal(s: System, a: Action)
    requires !a.Successor? && s.host.fence != Open
    ensures Next(s, a).host.fence != Open
  {
    hide DrainOne, FinishCall, RaiseLocalGap, ReleaseControl, ObserveRaw, Complete;
    if IsWorkerAction(a) {
      WorkerLeavesHost(s, a);
    }
  }

  lemma ReachableOn(s: System, a: Action)
    requires Reachable(s)
    ensures Reachable(Next(s, a))
  {
    hide Next, Attach;
    var cfg: Config, planFloor: nat, tokenFloor: nat, actions: seq<Action> :|
      cfg.Valid() && s == Run(Attach(cfg, planFloor, tokenFloor, tokenFloor, []), actions);
    var more := actions + [a];
    assert more[..|more| - 1] == actions;
    assert Next(s, a) == Run(Attach(cfg, planFloor, tokenFloor, tokenFloor, []), more);
  }

  lemma {:induction false} RunReachable(s: System, actions: seq<Action>)
    requires Reachable(s)
    ensures Reachable(Run(s, actions))
    decreases actions
  {
    hide Reachable, Next;
    if actions != [] {
      RunReachable(s, actions[..|actions| - 1]);
      ReachableOn(Run(s, actions[..|actions| - 1]), actions[|actions| - 1]);
    }
  }

  /**
    Over every run of one mapping: a fenced worker keeps its fence and never writes data again, and
    a fenced host never opens again or takes another data record.
    */
  lemma {:induction false} FencesAreFinal(s: System, actions: seq<Action>)
    requires Reachable(s) && forall i :: 0 <= i < |actions| ==> !actions[i].Successor?
    ensures var t := Run(s, actions);
      && (s.worker.fence != Open ==> t.worker.fence == s.worker.fence && t.up.data.sent == s.up.data.sent)
      && (s.host.fence != Open ==> t.host.fence != Open && t.host.accepted == s.host.accepted)
    decreases actions
  {
    hide Reachable, Next;
    if actions != [] {
      var before, a := actions[..|actions| - 1], actions[|actions| - 1];
      FencesAreFinal(s, before);
      RunReachable(s, before);
      var t := Run(s, before);
      if t.worker.fence != Open { WorkerFenceIsFinal(t, a); }
      if t.host.fence != Open {
        HostFenceIsFinal(t, a);
        if Next(t, a).host.accepted != t.host.accepted { AcceptsInOrder(t, a); }
      }
    }
  }

  predicate IsWorkerAction(a: Action) {
    a.WRaw? || a.WComplete? || a.WFault? || a.WStart? || a.WDrain? || a.WRelease? || a.WFinish?
  }

  lemma WorkerLeavesHost(s: System, a: Action)
    requires IsWorkerAction(a)
    ensures Next(s, a).host == s.host
  {
  }

  /** A local cause puts the gap on the lane at once, and a stream carries at most one gap. */
  lemma GapAlwaysFits(s: System, reason: Fence, c: nat)
    requires Reachable(s) && reason != Open
    ensures Next(s, WFault(reason, c)).worker.gapWritten
    ensures forall i, j :: 0 <= i < j < |s.up.control.sent| && s.up.control.sent[i].Gap? ==> !s.up.control.sent[j].Gap?
  {
    ReachableSound(s);
    LoadUpSound(s, c, 0);
    RaiseLocalGapSound(LoadUp(s, c, 0), reason);
  }

  /** A stream carries at most one stop ... */
  lemma StopAtMostOnce(s: System)
    requires Reachable(s)
    ensures forall i, k :: 0 <= i < k < |s.hostControl.sent| && s.hostControl.sent[i].Stop? ==> !s.hostControl.sent[k].Stop?
  {
    ReachableSound(s);
  }

  /** ... and a requested stop is on the lane at once. */
  lemma StopAlwaysFits(s: System, c: nat)
    requires Reachable(s) && s.host.pc == Idle
    ensures Next(s, HStop(c)).host.stopSent
  {
    hide SendStop, Inv, LoadDown, Run;
    ReachableSound(s);
    LoadDownSound(s, c, 0);
    var loaded := LoadDown(s, c, 0);
    CloseHostSound(loaded, Stopped);
    SendStopSound(loaded.(host := CloseHost(loaded.host, Stopped)));
  }

  /**
    Every admitted command and output symbol: no stop and no revocation of its plan was on the lane
    when its drain began.
    */
  lemma AdmissionsHonourControl(s: System, a: Admission)
    requires Reachable(s) && a in s.log
    ensures a.snapshot <= |s.hostControl.sent|
    ensures forall k :: 0 <= k < a.snapshot ==>
              s.hostControl.sent[k] != Stop && s.hostControl.sent[k] != Revoke(a.command.ref)
  {
    ReachableSound(s);
    assert AdmissionSound(s.hostControl.sent, a);
  }

  /** No owner token is admitted twice, not even across successor mappings. */
  lemma TokensNeverReused(s: System)
    requires Reachable(s)
    ensures forall i, k :: 0 <= i < k < |s.tokens| ==> s.tokens[i] < s.tokens[k]
  {
    ReachableSound(s);
  }
}
