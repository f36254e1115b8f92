/**
  Capture times on the worker's records and the host's test of them: every record carries the reading
  of the call that posted it, and the host fences on one that runs ahead of its own reading or back
  behind the last one it took from the same lane.
  */
module LinkTimes {
  import opened Octets
  import opened LinkLedger
  import opened Link
  import opened LinkSafety
  import opened LinkProgress

  /** The link with the capture time of every record and the last one the host took from each lane. */
  datatype Timed = Timed(s: System, dataTimes: seq<nat>, controlTimes: seq<nat>, lastData: nat, lastControl: nat)

  datatype Event = Event(action: Action, now: nat)

  function TimeAt(times: seq<nat>, i: nat): nat {
    if i < |times| then times[i] else 0
  }

  predicate Regressed(time: nat, last: nat, now: nat) {
    time > now || time < last
  }

  /** The poll's own verdict takes the place of the flag an action carries. */
  function Judged(t: Timed, e: Event): Action {
    match e.action
    case HPollData(_) =>
      HPollData(DataReady(t.s) && Regressed(TimeAt(t.dataTimes, t.s.up.data.read), t.lastData, e.now))
    case HPollControl(_) =>
      HPollControl(ControlReady(t.s) && Regressed(TimeAt(t.controlTimes, t.s.up.control.read), t.lastControl, e.now))
    case a => a
  }

  /** Records posted by a step carry its reading. */
  function Stamp(times: seq<nat>, n: nat, now: nat): (r: seq<nat>)
    ensures |r| == n
    ensures forall k :: 0 <= k < n ==> r[k] == if k < |times| then times[k] else now
  {
    if n <= |times| then times[..n] else times + seq(n - |times|, _ => now)
  }

  function Step(t: Timed, e: Event): Timed {
    var a := Judged(t, e);
    var u := Next(t.s, a);
    if a.Successor? && a.cfg.Valid() then Timed(u, [], [], 0, 0)
    else Timed(
        u, Stamp(t.dataTimes, |u.up.data.sent|, e.now), Stamp(t.controlTimes, |u.up.control.sent|, e.now),
        if a == HPollData(false) && DataReady(t.s) then TimeAt(t.dataTimes, t.s.up.data.read) else t.lastData,
        if a == HPollControl(false) && ControlReady(t.s) then TimeAt(t.controlTimes, t.s.up.control.read) else t.lastControl)
  }

  function TimedRun(t: Timed, events: seq<Event>): Timed {
    if events == [] then t else Step(TimedRun(t, events[..|events| - 1]), events[|events| - 1])
  }

  function TimedAttach(cfg: Config, planFloor: nat, tokenFloor: nat): Timed {
    Timed(Attach(cfg, planFloor, tokenFloor, tokenFloor, []), [], [], 0, 0)
  }

  /** A reading that is not earlier than any capture already made. */
  ghost predicate NotBefore(t: Timed, now: nat) {
    && (forall k :: 0 <= k < |t.dataTimes| ==> t.dataTimes[k] <= now)
    && (forall k :: 0 <= k < |t.controlTimes| ==> t.controlTimes[k] <= now)
  }

  /** Every reading of the run, on either side, is taken no earlier than the captures before it. */
  ghost predicate TimelyRun(t: Timed, events: seq<Event>) {
    events == [] || (TimelyRun(t, events[..|events| - 1])
                     && NotBefore(TimedRun(t, events[..|events| - 1]), events[|events| - 1].now))
  }

  ghost predicate LaneTimes(times: seq<nat>, sent: nat, read: nat, last: nat) {
    && |times| == sent && read <= sent
    && (forall i, k :: 0 <= i < k < |times| ==> times[i] <= times[k])
    && (forall k :: read <= k < |times| ==> last <= times[k])
    && (last == 0 || exists k :: 0 <= k < read && times[k] == last)
  }

  ghost predicate TimesSound(t: Timed) {
    && Inv(t.s)
    && LaneTimes(t.dataTimes, |t.s.up.data.sent|, t.s.up.data.read, t.lastData)
    && LaneTimes(t.controlTimes, |t.s.up.control.sent|, t.s.up.control.read, t.lastControl)
  }

  // ---- What a step does to the lanes ----

  lemma WorkerReadsNothing(s: System, a: Action)
    requires IsWorkerAction(a) && Inv(s)
    ensures Next(s, a).up.data.read == s.up.data.read && Next(s, a).up.control.read == s.up.control.read
    ensures |Next(s, a).up.data.sent| >= |s.up.data.sent| && |Next(s, a).up.control.sent| >= |s.up.control.sent|
  {
    hide Inv, DrainOne, FinishCall;
    match a
    case WDrain(now, c) => DrainReadsNothing(LoadUp(s, c, 0), now);
    case WFinish(now, c) => FinishReadsNothing(LoadUp(s, c, 0), now);
    case _ =>
  }

  ghost predicate Unread(s: System, t: System) {
    && t.up.data.read == s.up.data.read && t.up.control.read == s.up.control.read
    && |t.up.data.sent| >= |s.up.data.sent| && |t.up.control.sent| >= |s.up.control.sent|
  }

  lemma DrainReadsNothing(s: System, now: nat)
    ensures Unread(s, DrainOne(s, now))
  {
  }

  lemma FinishReadsNothing(s: System, now: nat)
    ensures Unread(s, FinishCall(s, now))
  {
  }

  predicate FencedReady(s: System) {
    s.host.fence != Open && s.host.pc == Idle && s.up.control.read < |s.up.control.sent|
  }

  lemma HostSendsNothing(s: System, a: Action)
    requires !IsWorkerAction(a) && !a.Successor?
    ensures var t := Next(s, a);
      && t.up.data.sent == s.up.data.sent && t.up.control.sent == s.up.control.sent
      && t.up.data.read == s.up.data.read + (if a.HPollData? && DataReady(s) then 1 else 0)
      && t.up.control.read == s.up.control.read
           + (if (a.HPollControl? && ControlReady(s)) || (a.HPollFenced? && FencedReady(s)) then 1 else 0)
  {
    hide HandleControl, HandleData;
  }

  // ---- Runs ----

  lemma StampedLane(times: seq<nat>, sent: nat, read: nat, last: nat, more: nat, now: nat)
    requires LaneTimes(times, sent, read, last) && more >= sent && forall k :: 0 <= k < |times| ==> times[k] <= now
    ensures LaneTimes(Stamp(times, more, now), more, read, last)
  {
  }

  /** One record read, or none; the last time taken moves to it, or stays. */
  lemma ReleasedLane(times: seq<nat>, sent: nat, read: nat, last: nat, more: nat, taken: nat, now: nat)
    requires LaneTimes(times, sent, read, last) && read <= more <= read + 1 && more <= sent
    requires taken == last || (more == read + 1 && taken == times[read])
    ensures LaneTimes(Stamp(times, sent, now), sent, more, taken)
  {
    assert Stamp(times, sent, now) == times;
    if taken != last {
      assert times[read] == taken;
    }
  }

  lemma StepTimes(t: Timed, e: Event)
    requires TimesSound(t) && NotBefore(t, e.now)
    ensures TimesSound(Step(t, e))
  {
    hide Inv, Next;
    var a := Judged(t, e);
    StepSound(t.s, a);
    if IsWorkerAction(a) {
      WorkerReadsNothing(t.s, a);
      StampedLane(t.dataTimes, |t.s.up.data.sent|, t.s.up.data.read, t.lastData, |Next(t.s, a).up.data.sent|, e.now);
      StampedLane(t.controlTimes, |t.s.up.control.sent|, t.s.up.control.read, t.lastControl, |Next(t.s, a).up.control.sent|, e.now);
    } else if !a.Successor? {
      HostSendsNothing(t.s, a);
      LaneBounds(Next(t.s, a));
      var u := Step(t, e);
      ReleasedLane(t.dataTimes, |t.s.up.data.sent|, t.s.up.data.read, t.lastData, u.s.up.data.read, u.lastData, e.now);
      ReleasedLane(t.controlTimes, |t.s.up.control.sent|, t.s.up.control.read, t.lastControl, u.s.up.control.read, u.lastControl, e.now);
    } else {
      SuccessorLanes(t.s, a.cfg);
    }
  }

  /** A reading that is not too early never finds a record of its own stream regressed. */
  lemma NoneRegresses(t: Timed, e: Event)
    requires TimesSound(t) && NotBefore(t, e.now)
    ensures Judged(t, e) == match e.action { case HPollData(_) => HPollData(false) case HPollControl(_) => HPollControl(false) case a => a }
  {
    hide Inv;
  }

  lemma SuccessorLanes(s: System, cfg: Config)
    ensures cfg.Valid() ==> Next(s, Successor(cfg)).up == Up(Fresh(), Fresh(), [])
    ensures !cfg.Valid() ==> Next(s, Successor(cfg)) == s
  {
  }

  lemma {:induction false} TimedRunSound(cfg: Config, planFloor: nat, tokenFloor: nat, events: seq<Event>)
    requires cfg.Valid() && TimelyRun(TimedAttach(cfg, planFloor, tokenFloor), events)
    ensures var t := TimedRun(TimedAttach(cfg, planFloor, tokenFloor), events);
            TimesSound(t) && Reachable(t.s)
    decreases |events|
  {
    hide Inv, Next, Step, Reachable;
    var start := TimedAttach(cfg, planFloor, tokenFloor);
    if events == [] {
      AttachSound(cfg, planFloor, tokenFloor, tokenFloor, []);
      AttachReachable(cfg, planFloor, tokenFloor);
    } else {
      var before, e := events[..|events| - 1], events[|events| - 1];
      TimedRunSound(cfg, planFloor, tokenFloor, before);
      var t := TimedRun(start, before);
      StepTimes(t, e);
      ReachableOn(t.s, Judged(t, e));
      StepIsNext(t, e);
    }
  }

  lemma StepIsNext(t: Timed, e: Event)
    ensures Step(t, e).s == Next(t.s, Judged(t, e))
  {
  }

  lemma AttachReachable(cfg: Config, planFloor: nat, tokenFloor: nat)
    requires cfg.Valid()
    ensures Reachable(Attach(cfg, planFloor, tokenFloor, tokenFloor, []))
  {
    assert Attach(cfg, planFloor, tokenFloor, tokenFloor, []) == Run(Attach(cfg, planFloor, tokenFloor, tokenFloor, []), []);
  }

  /**
    As long as every reading, on both sides, is taken no earlier than the captures before it, and no
    clock fault is reported, the host never fences on the clock: not over any run of both ends.
    */
  lemma {:induction false} TimelyNeverFencesClock(cfg: Config, planFloor: nat, tokenFloor: nat, events: seq<Event>)
    requires cfg.Valid() && TimelyRun(TimedAttach(cfg, planFloor, tokenFloor), events)
    requires forall i :: 0 <= i < |events| ==> events[i].action != HFault(Clock)
    ensures TimedRun(TimedAttach(cfg, planFloor, tokenFloor), events).s.host.fence != Clock
    decreases |events|
  {
    hide Inv, Next, Step, Reachable, TimesSound;
    var start := TimedAttach(cfg, planFloor, tokenFloor);
    if events != [] {
      var before, e := events[..|events| - 1], events[|events| - 1];
      TimelyNeverFencesClock(cfg, planFloor, tokenFloor, before);
      TimedRunSound(cfg, planFloor, tokenFloor, before);
      var t := TimedRun(start, before);
      StepIsNext(t, e);
      NoneRegresses(t, e);
      if e.action.Successor? {
        SuccessorClock(t.s, e.action.cfg);
      } else {
        ClockFenceExactly(t.s, Judged(t, e));
      }
    }
  }

  lemma SuccessorClock(s: System, cfg: Config)
    requires s.host.fence != Clock
    ensures Next(s, Successor(cfg)).host.fence != Clock
  {
  }

  /**
    The test in both directions: an open host fences on the clock exactly for a record captured after
    its reading or before the last one taken from the lane, and takes any other.
    */
  lemma RegressedExactly(t: Timed, flag: bool, now: nat)
    requires Reachable(t.s) && t.s.host.fence == Open && DataReady(t.s) && |t.dataTimes| == |t.s.up.data.sent|
    ensures var time := t.dataTimes[t.s.up.data.read];
      var u := Step(t, Event(HPollData(flag), now));
      && (u.s.host.fence == Clock <==> time > now || time < t.lastData)
      && (u.s.host.fence == Open <==> t.lastData <= time <= now)
      && u.s.up.data.read == t.s.up.data.read + 1
      && u.s.host.accepted == t.s.host.accepted
           + (if t.lastData <= time <= now then [t.s.up.data.sent[t.s.up.data.read].ordinal] else [])
      && u.lastData == (if t.lastData <= time <= now then time else t.lastData)
  {
    hide Next, Reachable;
    TimelyDataTaken(t.s, Regressed(t.dataTimes[t.s.up.data.read], t.lastData, now));
  }

  /**
    One clock on both sides is not enough: a reading taken before the record it meets was captured
    fences the host, although neither side's clock ever went back.
    */
  lemma EarlyReadingFences(cfg: Config, planFloor: nat, tokenFloor: nat, time: nat, now: nat)
    requires cfg.Valid() && now < time
    ensures var events := [Event(WRaw(0, None, 0, 0), time), Event(HSample, now), Event(HPollControl(false), now), Event(HPollData(false), now)];
            TimedRun(TimedAttach(cfg, planFloor, tokenFloor), events).s.host.fence == Clock
  {
    hide Next, Reachable, Step, Stamp;
    var start := TimedAttach(cfg, planFloor, tokenFloor);
    var e0, e1, e2, e3 := Event(WRaw(0, None, 0, 0), time), Event(HSample, now), Event(HPollControl(false), now), Event(HPollData(false), now);
    FourSteps(start, e0, e1, e2, e3);
    OneOctetSeen(cfg, planFloor, tokenFloor, time, now);
    RegressedExactly(Step(Step(Step(start, e0), e1), e2), false, now);
  }

  lemma OneOctetSeen(cfg: Config, planFloor: nat, tokenFloor: nat, time: nat, now: nat)
    requires cfg.Valid()
    ensures var start := TimedAttach(cfg, planFloor, tokenFloor);
      var t := Step(Step(Step(start, Event(WRaw(0, None, 0, 0), time)), Event(HSample, now)), Event(HPollControl(false), now));
      Reachable(t.s) && t.s.host.fence == Open && DataReady(t.s) && t.s.up.data.read == 0 && |t.s.up.data.sent| == 1 && t.dataTimes == [time]
  {
    hide Next, Reachable, DataFirst;
    var start := TimedAttach(cfg, planFloor, tokenFloor);
    AttachReachable(cfg, planFloor, tokenFloor);
    OctetPosted(start.s, 0, None, 0, 0);
    ReachableOn(start.s, WRaw(0, None, 0, 0));
    var a := Step(start, Event(WRaw(0, None, 0, 0), time));
    assert a.dataTimes == [time];
    SampledHead(a.s);
    ReachableOn(a.s, HSample);
    var b := Step(a, Event(HSample, now));
    assert b.dataTimes == [time];
    ControlPassedOver(b.s, false);
    ReachableOn(b.s, HPollControl(false));
    var c := Step(b, Event(HPollControl(false), now));
    assert c.dataTimes == [time];
    assert Reachable(c.s);
    assert c.s.host.fence == Open;
    assert c.s.up.data.read == 0;
    assert |c.s.up.data.sent| == 1;
    assert c.s.host.pc == Checked(1);
  }

  lemma FourSteps(t: Timed, e0: Event, e1: Event, e2: Event, e3: Event)
    ensures TimedRun(t, [e0, e1, e2, e3]) == Step(Step(Step(Step(t, e0), e1), e2), e3)
  {
    hide Step;
    assert [e0, e1, e2, e3][..3] == [e0, e1, e2] && [e0, e1, e2][..2] == [e0, e1] && [e0, e1][..1] == [e0] && [e0][..0] == [];
    assert TimedRun(t, []) == t;
    assert TimedRun(t, [e0]) == Step(t, e0);
    assert TimedRun(t, [e0, e1]) == Step(Step(t, e0), e1);
  }
}
