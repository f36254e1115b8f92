/** The AA26 responder's transaction: its state, and what it means for a symbol to be on the wire. */
module ResponderState {
  import opened Octets
  import opened Overlap
  import opened Registry
  import opened WorkerView
  import opened RegistrySafety
  import opened PlanSafety
  import PlanTheorems
  import LinkLedger
  import Link
  import LinkSafety
  import Address
  import Crc
  import Wire

  const MAX_REQUEST_DATA := 16

  datatype Stage =
    | Unsynced | Skip | AtSource | AtTarget | AtPB | AtSB | AtNN | AtData | AtCrc | TargetAck | Replying | InitiatorAck

  datatype Reason =
    | NoClose | Completed | InitiatorNack | Malformed | NoMatch | Interrupted | Framing | Collision | RevokedPlan
    | ExpiredPlan | Fenced | Authority | GapSeen | ClockFault | Refused | IdleBus | StreamEnded

  datatype Frame = Frame(
    stage: Stage, escape: bool, crc: byte, source: byte, target: byte, pb: byte, sb: byte, nn: byte, data: seq<byte>)

  datatype Txn = Txn(
    active: bool, key: WireKey, ref: LinkLedger.PlanRef, prepared: bool, entry: nat, replyLen: nat, offset: nat, awaitEcho: bool,
    echoSymbol: byte, echoNotBefore: nat)

  const NO_REF := LinkLedger.PlanRef(0, 0, 0, 0, 0)

  const NO_TXN := Txn(false, WireKey(NO_IDENTITY, 0), NO_REF, false, 0, 0, 0, false, 0, 0)

  /**
    What happened in the current transaction: the raw symbols under the CRC, the symbols put on the
    wire, their echoes, and the CRC symbol that let the first of them out.
    */
  datatype Track = Track(raw: seq<byte>, emitted: seq<byte>, echoed: seq<byte>, verdict: Option<byte>)

  // ---- The link ----

  /** aa26IPCReason, once the control lane has been serviced. */
  function LinkReason(w: Link.Worker, ref: LinkLedger.PlanRef): Reason {
    var i := Link.FindAdopted(w.adopted, ref);
    if w.fence != Link.Open then Fenced
    else if i == |w.adopted| then Authority
    else if w.adopted[i].revoked then RevokedPlan
    else NoClose
  }

  /** A link, following its own rules, whose control lane was just drained for this decision. */
  ghost predicate Serviced(s: Link.System) {
    LinkSafety.Reachable(s) && s.worker.pc.Drained?
  }

  /** No stop and no revocation of the plan was on the lane when the drain began. */
  ghost predicate Cleared(s: Link.System, ref: LinkLedger.PlanRef)
    requires s.worker.pc.Drained?
  {
    && s.worker.pc.snapshot <= |s.hostControl.sent|
    && forall k :: 0 <= k < s.worker.pc.snapshot ==> s.hostControl.sent[k] != Link.Stop && s.hostControl.sent[k] != Link.Revoke(ref)
  }

  /** Whatever host and worker did before, an open link for a usable plan means a clear lane. */
  lemma UsableMeansCleared(s: Link.System, ref: LinkLedger.PlanRef)
    requires Serviced(s) && s.worker.fence == Link.Open && Link.PlanUsable(s.worker, ref)
    ensures Cleared(s, ref)
  {
    hide LinkSafety.Reachable, LinkSafety.Inv, Link.PlanUsable;
    LinkSafety.ReachableSound(s);
    LinkSafety.AdmissionFits(s, LinkLedger.Command(ref, 0, 0, 0, 0));
  }

  lemma NoReasonMeansCleared(s: Link.System, ref: LinkLedger.PlanRef)
    requires Serviced(s) && LinkReason(s.worker, ref).NoClose?
    ensures Cleared(s, ref)
  {
    hide Serviced, Cleared;
    UsableMeansCleared(s, ref);
  }

  /** The close reason for a pin that is not live. */
  function ReasonOf(f: PinFault): Reason {
    match f
    case NoFault => NoClose
    case RevokedPin => RevokedPlan
    case ExpiredPin => ExpiredPlan
    case ClockClosed => ClockFault
    case _ => Authority
  }

  // ---- The request ----

  predicate InRequest(s: Stage) {
    s.AtPB? || s.AtSB? || s.AtNN? || s.AtData? || s.AtCrc?
  }

  predicate Selected(s: Stage) {
    InRequest(s) || s.TargetAck? || s.Replying? || s.InitiatorAck?
  }

  predicate Summed(s: Stage) {
    s.AtTarget? || InRequest(s)
  }

  /** The logical bytes of the request read so far. */
  function Taken(f: Frame): seq<byte> {
    match f.stage
    case AtTarget => [f.source]
    case AtPB => [f.source, f.target]
    case AtSB => [f.source, f.target, f.pb]
    case AtNN => [f.source, f.target, f.pb, f.sb]
    case AtData => Whole(f)
    case AtCrc => Whole(f)
    case _ => []
  }

  function Whole(f: Frame): seq<byte> {
    [f.source, f.target, f.pb, f.sb, f.nn] + f.data
  }

  function QueryOf(f: Frame): Query {
    Query(f.source, f.target, f.pb, f.sb, f.data)
  }

  /** The CRC is that of the escaped request so far, an open escape prefix included. */
  ghost predicate SumSound(f: Frame, raw: seq<byte>) {
    && (Summed(f.stage) ==>
          f.crc == Crc.Run(0, raw) && raw == Wire.Escape(Taken(f)) + if f.escape && !f.stage.AtCrc? then [ESC] else [])
    && (f.stage.AtSource? ==> f.crc == 0 && raw == [] && !f.escape) && (f.stage.AtTarget? ==> !f.escape)
    && (f.stage.AtData? ==> |f.data| < f.nn <= MAX_REQUEST_DATA)
    && (f.stage.AtCrc? || f.stage.TargetAck? || f.stage.Replying? || f.stage.InitiatorAck? ==> |f.data| == f.nn)
    && (f.stage.AtTarget? || Selected(f.stage) ==> Address.IsInitiator(f.source))
  }

  ghost predicate HasPlan(w: World, t: Txn) {
    && t.key.identity in w.history.prepared
    && t.entry < |w.history.prepared[t.key.identity].candidate.entries|
  }

  /** The encoded response of the entry chosen for this transaction. */
  ghost function Reply(w: World, t: Txn): seq<byte>
    requires HasPlan(w, t)
  {
    w.history.prepared[t.key.identity].candidate.entries[t.entry].response
  }

  /** A prepared transaction has chosen an entry that answers the request. */
  ghost predicate EntryChosen(w: World, f: Frame, t: Txn) {
    t.prepared ==>
      && HasPlan(w, t) && t.replyLen == |Reply(w, t)|
      && PlanTheorems.Answers(w.history.prepared[t.key.identity].candidate.entries[t.entry], QueryOf(f))
      && (f.stage.AtCrc? || f.stage.TargetAck? || f.stage.Replying? || f.stage.InitiatorAck?)
  }

  /**
    What is on the wire: a prefix of the ACK and the reply, all of it echoed but at most the last
    symbol, and none of it before the request's CRC was right.
    */
  ghost predicate OutputSound(w: World, f: Frame, t: Txn, k: Track) {
    match f.stage
    case TargetAck => t.prepared && t.awaitEcho && t.offset == 0 && t.echoSymbol == ACK && k.emitted == [ACK] && k.echoed == []
    case Replying =>
      && t.prepared && t.awaitEcho && HasPlan(w, t) && t.offset < |Reply(w, t)| && t.echoSymbol == Reply(w, t)[t.offset]
      && k.emitted == [ACK] + Reply(w, t)[..t.offset + 1] && k.echoed == [ACK] + Reply(w, t)[..t.offset]
    case InitiatorAck =>
      t.prepared && !t.awaitEcho && HasPlan(w, t) && k.emitted == [ACK] + Reply(w, t) && k.echoed == k.emitted
    case _ => !t.awaitEcho && (Selected(f.stage) ==> k.emitted == [] && k.echoed == [] && t.offset == 0)
  }

  ghost predicate VerdictSound(f: Frame, k: Track) {
    f.stage.TargetAck? || f.stage.Replying? || f.stage.InitiatorAck? ==>
      k.verdict.Some? && k.verdict.value == Wire.LogicalCrc(Whole(f))
  }

  ghost predicate TxnSound(w: World, f: Frame, t: Txn, k: Track, v: View, held: bool) {
    && SumSound(f, k.raw) && EntryChosen(w, f, t) && OutputSound(w, f, t, k) && VerdictSound(f, k)
    && t.active == Selected(f.stage) && t.active == v.pin.Some? && (t.active ==> v.pin.value.key == t.key)
    && !(t.active && held) && (!t.active ==> t == NO_TXN)
  }

  // ---- Reading the request ----

  lemma AddressesUnescaped(b: byte)
    requires Address.IsInitiator(b) || Address.IsTarget(b)
    ensures Wire.EscapeOne(b) == [b]
  {
  }
}
