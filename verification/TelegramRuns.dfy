/** The automaton accepts exactly the telegrams of the data link layer, whatever raw SYNs are injected. */
module TelegramRuns {
  import opened Octets
  import opened TelegramFsm

  // ---- The grammar ----

  predicate NoRaw(xs: seq<Symbol>) {
    forall i :: 0 <= i < |xs| ==> !IsRaw(xs[i])
  }

  /** QQ ZZ PB SB NN, NN data symbols, and a CRC. */
  predicate IsFrame(f: seq<Symbol>) {
    NoRaw(f) && |f| >= 6 && f[4].value <= MAX_LENGTH && |f| == 6 + f[4].value
  }

  predicate IsBroadcast(f: seq<Symbol>) {
    |f| >= 2 && f[1].value == BROADCAST
  }

  /** NN, NN data symbols, and a CRC. */
  predicate IsReply(f: seq<Symbol>) {
    NoRaw(f) && |f| >= 2 && f[0].value <= MAX_LENGTH && |f| == 2 + f[0].value
  }

  datatype Request = Sent(frame: seq<Symbol>) | SentTwice(first: seq<Symbol>, nack: Symbol, frame: seq<Symbol>) {
    function Wire(): seq<Symbol> {
      match this case Sent(f) => f case SentTwice(first, nack, f) => first + [nack] + f
    }

    predicate Legal() {
      IsFrame(frame) && (SentTwice? ==> IsFrame(first) && !IsBroadcast(first) && nack.value == NACK)
    }
  }

  datatype Answer =
    | NoAnswer
    | Replied(ack: Symbol, reply: seq<Symbol>, done: Symbol)
    | RepliedTwice(ack: Symbol, first: seq<Symbol>, nack: Symbol, reply: seq<Symbol>, done: Symbol)
  {
    function Wire(): seq<Symbol> {
      match this
      case NoAnswer => []
      case Replied(ack, reply, done) => [ack] + reply + [done]
      case RepliedTwice(ack, first, nack, reply, done) => [ack] + first + [nack] + reply + [done]
    }

    predicate Legal() {
      match this
      case NoAnswer => true
      case Replied(ack, reply, done) => ack.value == ACK && IsReply(reply) && done.value == ACK
      case RepliedTwice(ack, first, nack, reply, done) =>
        ack.value == ACK && IsReply(first) && nack.value == NACK && IsReply(reply) && done.value == ACK
    }
  }

  /** A telegram up to its terminating SYN: at most one retransmission on either side. */
  datatype Telegram = Telegram(request: Request, answer: Answer) {
    function Wire(): seq<Symbol> {
      request.Wire() + answer.Wire()
    }

    predicate Legal() {
      request.Legal() && answer.Legal() && (answer.NoAnswer? <==> IsBroadcast(request.frame))
    }
  }

  // ---- Runs ----

  function Fold(m: Snapshot, xs: seq<Symbol>): Snapshot
    decreases xs
  {
    if xs == [] then m else Fold(Next(m, xs[0]).0, xs[1..])
  }

  /** What reaches the observers: everything not dropped. */
  function Passed(m: Snapshot, xs: seq<Symbol>): seq<Symbol>
    decreases xs
  {
    if xs == [] then []
    else (if Next(m, xs[0]).1.DropInjection? then [] else [xs[0]]) + Passed(Next(m, xs[0]).0, xs[1..])
  }

  predicate Faultless(m: Snapshot, xs: seq<Symbol>)
    decreases xs
  {
    xs == [] || (!Next(m, xs[0]).1.Fault? && Faultless(Next(m, xs[0]).0, xs[1..]))
  }

  /** Phases in which a raw SYN is taken for an injection. */
  predicate Filters(m: Snapshot) {
    !m.state.Idle? && !m.state.Aborted? && !m.state.WaitTerminator?
  }

  function Strip(xs: seq<Symbol>): seq<Symbol> {
    if xs == [] then [] else (if IsRaw(xs[0]) then [] else [xs[0]]) + Strip(xs[1..])
  }

  /** xs moves m to end, symbol by symbol, in filtering phases only. */
  predicate Moves(m: Snapshot, xs: seq<Symbol>, end: Snapshot)
    decreases xs
  {
    if xs == [] then m == end
    else Filters(m) && !IsRaw(xs[0]) && Next(m, xs[0]).1.Forward? && Moves(Next(m, xs[0]).0, xs[1..], end)
  }

  lemma {:induction false} MovesOn(m: Snapshot, xs: seq<Symbol>, mid: Snapshot, ys: seq<Symbol>, end: Snapshot)
    requires Moves(m, xs, mid) && Moves(mid, ys, end)
    ensures Moves(m, xs + ys, end)
    decreases xs
  {
    hide Next;
    if xs == [] {
      assert xs + ys == ys;
    } else {
      assert (xs + ys)[0] == xs[0] && (xs + ys)[1..] == xs[1..] + ys;
      MovesOn(Next(m, xs[0]).0, xs[1..], mid, ys, end);
    }
  }

  /** A raw SYN changes nothing in a filtering phase. */
  lemma InjectionStutters(m: Snapshot, x: Symbol)
    requires Filters(m) && IsRaw(x)
    ensures Next(m, x) == (m, DropInjection)
  {
  }

  /** Injections before the last symbol are invisible: same end, same output, nothing faulted. */
  lemma {:induction false} InjectionsInvisible(m: Snapshot, w: seq<Symbol>, end: Snapshot)
    requires Moves(m, Strip(w), end) && Filters(m)
    requires w == [] || !IsRaw(w[|w| - 1])
    ensures Fold(m, w) == end && Passed(m, w) == Strip(w) && Faultless(m, w)
    decreases w
  {
    hide Next, Filters;
    if w != [] {
      var rest := w[1..];
      assert rest == [] || rest[|rest| - 1] == w[|w| - 1];
      if IsRaw(w[0]) {
        InjectionStutters(m, w[0]);
        assert Strip(w) == Strip(rest);
        InjectionsInvisible(m, rest, end);
      } else {
        assert Strip(w)[0] == w[0] && Strip(w)[1..] == Strip(rest);
        var n := Next(m, w[0]).0;
        if rest == [] {
          assert Strip(rest) == [];
        } else {
          StripKeepsLast(rest);
          InjectionsInvisible(n, rest, end);
        }
      }
    }
  }

  lemma {:induction false} StripKeepsLast(w: seq<Symbol>)
    requires w != [] && !IsRaw(w[|w| - 1])
    ensures Strip(w) != []
    decreases w
  {
    if IsRaw(w[0]) {
      assert w[1..][|w[1..]| - 1] == w[|w| - 1];
      StripKeepsLast(w[1..]);
    }
  }

  // ---- Frames ----

  /** About to read a frame or reply: in which state, and how the machine remembers it. */
  predicate AwaitsFrame(m: Snapshot) {
    m.state.Arbitrating? || m.state.MasterRetx?
  }

  predicate AwaitsReply(m: Snapshot) {
    m.state.SlaveLength? || m.state.SlaveRetx?
  }

  lemma {:induction false} TakesMasterData(m: Snapshot, xs: seq<Symbol>)
    requires NoRaw(xs) && m.state.MasterData? && m.consumed + |xs| == m.masterNN && |xs| > 0
    ensures Moves(m, xs, Restart(m, MasterCrc))
    decreases xs
  {
    var n := Next(m, xs[0]).0;
    assert !IsRaw(xs[0]) && Filters(m);
    if |xs| > 1 {
      TakesMasterData(n, xs[1..]);
      assert Restart(n, MasterCrc) == Restart(m, MasterCrc);
    } else {
      assert xs[1..] == [];
    }
  }

  lemma {:induction false} TakesSlaveData(m: Snapshot, xs: seq<Symbol>)
    requires NoRaw(xs) && m.state.SlaveData? && m.consumed + |xs| == m.slaveNN && |xs| > 0
    ensures Moves(m, xs, Restart(m, SlaveCrc))
    decreases xs
  {
    var n := Next(m, xs[0]).0;
    assert !IsRaw(xs[0]) && Filters(m);
    if |xs| > 1 {
      TakesSlaveData(n, xs[1..]);
      assert Restart(n, SlaveCrc) == Restart(m, SlaveCrc);
    } else {
      assert xs[1..] == [];
    }
  }

  lemma MovesOne(m: Snapshot, x: Symbol)
    requires Filters(m) && !IsRaw(x) && Next(m, x).1.Forward?
    ensures Moves(m, [x], Next(m, x).0)
  {
    assert [x][1..] == [];
    assert Moves(Next(m, x).0, [], Next(m, x).0);
  }

  /** The machine with a header of k symbols behind it. */
  function HeaderAt(m: Snapshot, f: seq<Symbol>, k: nat): Snapshot
    requires 1 <= k <= 4 <= |f|
  {
    m.(state := MasterHeader, consumed := k, dest := if k > 1 then f[1].value else if m.state.MasterRetx? then 0 else m.dest,
       masterNN := if m.state.MasterRetx? then 0 else m.masterNN)
  }

  lemma TakesHeader(m: Snapshot, f: seq<Symbol>, k: nat)
    requires AwaitsFrame(m) && NoRaw(f) && 1 <= k <= 4 <= |f|
    ensures Moves(m, f[..k], HeaderAt(m, f, k))
  {
    if k == 1 {
      MovesOne(m, f[0]);
      assert f[..1] == [f[0]];
    } else {
      TakesHeader(m, f, k - 1);
      var before := HeaderAt(m, f, k - 1);
      MovesOne(before, f[k - 1]);
      MovesOn(m, f[..k - 1], before, [f[k - 1]], HeaderAt(m, f, k));
      assert f[..k] == f[..k - 1] + [f[k - 1]];
    }
  }

  /** After a whole frame: what the machine knows is the frame's destination and length. */
  function FrameRead(m: Snapshot, f: seq<Symbol>): Snapshot
    requires |f| >= 6 && f[4].value <= MAX_LENGTH
  {
    m.(state := if f[1].value == BROADCAST then WaitTerminator else WaitMasterAck, consumed := 0,
       dest := f[1].value, masterNN := f[4].value)
  }

  function LengthRead(m: Snapshot, f: seq<Symbol>): Snapshot
    requires |f| >= 6 && f[4].value <= MAX_LENGTH
  {
    m.(state := if f[4].value == 0 then MasterCrc else MasterData, consumed := 0, dest := f[1].value, masterNN := f[4].value)
  }

  lemma TakesFiveSymbols(m: Snapshot, f: seq<Symbol>)
    requires AwaitsFrame(m) && IsFrame(f)
    ensures Moves(m, f[..5], LengthRead(m, f))
  {
    TakesHeader(m, f, 4);
    var h := HeaderAt(m, f, 4);
    MovesOne(h, f[4]);
    MovesOn(m, f[..4], h, [f[4]], LengthRead(m, f));
    assert f[..5] == f[..4] + [f[4]];
  }

  lemma TakesFrame(m: Snapshot, f: seq<Symbol>)
    requires AwaitsFrame(m) && IsFrame(f)
    ensures Moves(m, f, FrameRead(m, f))
  {
    hide Moves;
    TakesFiveSymbols(m, f);
    var n, l := LengthRead(m, f), |f| - 1;
    var crc := Restart(n, MasterCrc);
    if l > 5 {
      TakesMasterData(n, f[5..l]);
      MovesOn(m, f[..5], n, f[5..l], crc);
      assert f[..5] + f[5..l] == f[..l];
    } else {
      assert crc == n && f[..5] == f[..l];
    }
    MovesOne(crc, f[l]);
    MovesOn(m, f[..l], crc, [f[l]], FrameRead(m, f));
    assert f[..l] + [f[l]] == f;
  }

  function ReplyRead(m: Snapshot, f: seq<Symbol>): Snapshot
    requires |f| >= 2 && f[0].value <= MAX_LENGTH
  {
    m.(state := WaitSlaveAck, consumed := 0, slaveNN := f[0].value)
  }

  lemma TakesReply(m: Snapshot, f: seq<Symbol>)
    requires AwaitsReply(m) && IsReply(f)
    ensures Moves(m, f, ReplyRead(m, f))
  {
    hide Moves;
    var n, l := Next(m, f[0]).0, |f| - 1;
    MovesOne(m, f[0]);
    assert f[..1] == [f[0]];
    var crc := Restart(n, SlaveCrc);
    if l > 1 {
      TakesSlaveData(n, f[1..l]);
      MovesOn(m, f[..1], n, f[1..l], crc);
      assert f[..1] + f[1..l] == f[..l];
    } else {
      assert crc == n && f[..1] == f[..l];
    }
    MovesOne(crc, f[l]);
    MovesOn(m, f[..l], crc, [f[l]], ReplyRead(m, f));
    assert f[..l] + [f[l]] == f;
  }

  // ---- Legal telegrams pass ----

  /** A machine fresh from arbitration. */
  predicate Starts(m: Snapshot) {
    m.state.Arbitrating? && m.masterRetx == 0 && m.slaveRetx == 0
  }

  lemma TakesRequest(m: Snapshot, r: Request)
    requires Starts(m) && r.Legal()
    ensures var end := Fold(m, r.Wire());
      && Moves(m, r.Wire(), end) && end.slaveRetx == 0
      && end.state == if IsBroadcast(r.frame) then WaitTerminator else WaitMasterAck
  {
    hide Moves, Fold;
    match r
    case Sent(f) =>
      TakesFrame(m, f);
      MovesIsFold(m, f, FrameRead(m, f));
    case SentTwice(first, nack, f) =>
      TakesFrame(m, first);
      var waiting := FrameRead(m, first);
      var again := Next(waiting, nack).0;
      MovesOne(waiting, nack);
      MovesOn(m, first, waiting, [nack], again);
      TakesFrame(again, f);
      MovesOn(m, first + [nack], again, f, FrameRead(again, f));
      MovesIsFold(m, r.Wire(), FrameRead(again, f));
  }

  lemma TakesAnswer(m: Snapshot, a: Answer)
    requires m.state.WaitMasterAck? && m.slaveRetx == 0 && a.Legal() && !a.NoAnswer?
    ensures Moves(m, a.Wire(), Fold(m, a.Wire())) && Fold(m, a.Wire()).state.WaitTerminator?
  {
    hide Moves, Fold;
    var asked := Next(m, a.ack).0;
    MovesOne(m, a.ack);
    match a
    case Replied(ack, reply, done) =>
      TakesReply(asked, reply);
      var read := ReplyRead(asked, reply);
      MovesOn(m, [ack], asked, reply, read);
      MovesOne(read, done);
      MovesOn(m, [ack] + reply, read, [done], Next(read, done).0);
      MovesIsFold(m, a.Wire(), Next(read, done).0);
    case RepliedTwice(ack, first, nack, reply, done) =>
      TakesReply(asked, first);
      var read := ReplyRead(asked, first);
      MovesOn(m, [ack], asked, first, read);
      MovesOne(read, nack);
      var again := Next(read, nack).0;
      MovesOn(m, [ack] + first, read, [nack], again);
      TakesReply(again, reply);
      var last := ReplyRead(again, reply);
      MovesOn(m, [ack] + first + [nack], again, reply, last);
      MovesOne(last, done);
      MovesOn(m, [ack] + first + [nack] + reply, last, [done], Next(last, done).0);
      MovesIsFold(m, a.Wire(), Next(last, done).0);
  }

  lemma {:induction false} MovesIsFold(m: Snapshot, xs: seq<Symbol>, end: Snapshot)
    requires Moves(m, xs, end)
    ensures Fold(m, xs) == end
    decreases xs
  {
    hide Next;
    if xs != [] { MovesIsFold(Next(m, xs[0]).0, xs[1..], end); }
  }

  lemma TakesTelegram(m: Snapshot, t: Telegram)
    requires Starts(m) && t.Legal()
    ensures Moves(m, t.Wire(), Fold(m, t.Wire())) && Fold(m, t.Wire()).state.WaitTerminator?
  {
    hide Moves, Fold, Next;
    TakesRequest(m, t.request);
    var asked := Fold(m, t.request.Wire());
    if t.answer.NoAnswer? {
      assert t.Wire() == t.request.Wire();
    } else {
      TakesAnswer(asked, t.answer);
      var end := Fold(asked, t.answer.Wire());
      MovesOn(m, t.request.Wire(), asked, t.answer.Wire(), end);
      MovesIsFold(m, t.Wire(), end);
    }
  }

  /**
    Any legal telegram, with any number of raw SYNs injected before its last symbol, passes exactly:
    the injections are dropped, everything else is forwarded without a fault, and the terminating
    SYN leaves the machine cleared.
    */
  lemma LegalTelegramPasses(m: Snapshot, t: Telegram, w: seq<Symbol>)
    requires Starts(m) && t.Legal()
    requires Strip(w) == t.Wire() && w != [] && !IsRaw(w[|w| - 1])
    ensures var all := w + [Symbol(SYN, false)];
      Fold(m, all) == CLEARED && Passed(m, all) == t.Wire() + [Symbol(SYN, false)] && Faultless(m, all)
  {
    hide Moves, Fold, Passed, Faultless;
    TakesTelegram(m, t);
    InjectionsInvisible(m, w, Fold(m, t.Wire()));
    var last := [Symbol(SYN, false)];
    RunsOn(m, w, last);
    var waiting := Fold(m, w);
    assert Next(waiting, last[0]) == (CLEARED, Forward);
    LastStep(waiting, last[0]);
  }

  lemma LastStep(m: Snapshot, x: Symbol)
    ensures Fold(m, [x]) == Next(m, x).0
    ensures Next(m, x).1.Forward? ==> Passed(m, [x]) == [x] && Faultless(m, [x])
  {
    assert [x][1..] == [];
    assert Fold(Next(m, x).0, []) == Next(m, x).0 && Passed(Next(m, x).0, []) == [];
  }

  lemma {:induction false} RunsOn(m: Snapshot, xs: seq<Symbol>, ys: seq<Symbol>)
    ensures Fold(m, xs + ys) == Fold(Fold(m, xs), ys)
    ensures Passed(m, xs + ys) == Passed(m, xs) + Passed(Fold(m, xs), ys)
    ensures Faultless(m, xs + ys) <==> Faultless(m, xs) && Faultless(Fold(m, xs), ys)
    decreases xs
  {
    hide Next;
    if xs == [] {
      assert xs + ys == ys;
    } else {
      assert (xs + ys)[0] == xs[0] && (xs + ys)[1..] == xs[1..] + ys;
      RunsOn(Next(m, xs[0]).0, xs[1..], ys);
    }
  }
}
