/** The converse of acceptance, and how long any run can last. */
module TelegramBounds {
  import opened Octets
  import opened TelegramFsm
  import opened TelegramRuns

  // ---- Only legal telegrams complete ----

  /** The run of w from m completes: it reaches idle at its last symbol and not before. */
  ghost predicate Completes(m: Snapshot, w: seq<Symbol>)
    decreases w
  {
    w != [] && !m.state.Idle? &&
    if |w| == 1 then Next(m, w[0]).0.state.Idle? else Completes(Next(m, w[0]).0, w[1..])
  }

  lemma {:induction false} AbortedNeverCompletes(m: Snapshot, w: seq<Symbol>)
    requires m.state.Aborted?
    ensures !Completes(m, w)
    decreases w
  {
    if w != [] { AbortedNeverCompletes(m, w[1..]); }
  }

  /** Outside filtering phases, only the awaited SYN completes, and it does so alone. */
  lemma TerminatorIsAlone(m: Snapshot, w: seq<Symbol>)
    requires m.state.WaitTerminator? && Completes(m, w)
    ensures |w| == 1 && IsRaw(w[0])
  {
    if !IsRaw(w[0]) && |w| > 1 {
      AbortedNeverCompletes(Next(m, w[0]).0, w[1..]);
    }
  }

  lemma FilteringStep(m: Snapshot, x: Symbol)
    requires Filters(m) && !IsRaw(x)
    ensures !Next(m, x).0.state.Idle? && (Next(m, x).1.Forward? || Next(m, x).0.state.Aborted?)
    ensures !Next(m, x).1.DropInjection?
  {
  }

  /** A completed run is a move to the terminator phase under injections, then the terminator. */
  lemma {:induction false} CompletedRun(m: Snapshot, w: seq<Symbol>) returns (end: Snapshot)
    requires Filters(m) && Completes(m, w)
    ensures |w| >= 2 && IsRaw(w[|w| - 1]) && !IsRaw(w[|w| - 2])
    ensures end.state.WaitTerminator? && Moves(m, Strip(w[..|w| - 1]), end)
    decreases w
  {
    hide NextActive;
    var x, rest := w[0], w[1..];
    var n := Next(m, x).0;
    assert forall i :: 1 <= i < |w| ==> w[i] == rest[i - 1];
    if IsRaw(x) {
      InjectionStutters(m, x);
      assert |w| > 1;
      end := CompletedRun(m, rest);
      assert w[..|w| - 1] == [x] + rest[..|rest| - 1];
      StripOne(x, rest[..|rest| - 1]);
      assert Strip(w[..|w| - 1]) == Strip(rest[..|rest| - 1]);
    } else {
      FilteringStep(m, x);
      assert |w| > 1;
      if n.state.Aborted? { AbortedNeverCompletes(n, rest); }
      assert w[..|w| - 1] == [x] + rest[..|rest| - 1];
      StripOne(x, rest[..|rest| - 1]);
      if n.state.WaitTerminator? {
        TerminatorIsAlone(n, rest);
        end := n;
        assert rest[..|rest| - 1] == [];
        assert Moves(n, [], end);
      } else {
        end := CompletedRun(n, rest);
      }
      OneThenRest(m, x, Strip(rest[..|rest| - 1]), end);
    }
  }

  lemma StripOne(x: Symbol, xs: seq<Symbol>)
    ensures Strip([x] + xs) == (if IsRaw(x) then [] else [x]) + Strip(xs)
  {
    assert ([x] + xs)[1..] == xs;
  }

  lemma OneThenRest(m: Snapshot, x: Symbol, xs: seq<Symbol>, end: Snapshot)
    requires Filters(m) && !IsRaw(x) && Next(m, x).1.Forward? && Moves(Next(m, x).0, xs, end)
    ensures Moves(m, [x] + xs, end)
  {
    assert ([x] + xs)[1..] == xs;
  }

  lemma {:induction false} MovesSplits(m: Snapshot, xs: seq<Symbol>, k: nat, end: Snapshot)
    requires Moves(m, xs, end) && k <= |xs|
    ensures Moves(m, xs[..k], Fold(m, xs[..k])) && Moves(Fold(m, xs[..k]), xs[k..], end)
    decreases xs
  {
    hide Next;
    if k == 0 {
      assert xs[..0] == [] && xs[0..] == xs;
    } else {
      MovesSplits(Next(m, xs[0]).0, xs[1..], k - 1, end);
      assert xs[..k][0] == xs[0] && xs[..k][1..] == xs[1..][..k - 1] && xs[k..] == xs[1..][k - 1..];
    }
  }

  lemma {:induction false} MovedIsClean(m: Snapshot, xs: seq<Symbol>, end: Snapshot)
    requires Moves(m, xs, end)
    ensures NoRaw(xs)
    decreases xs
  {
    if xs != [] {
      MovedIsClean(Next(m, xs[0]).0, xs[1..], end);
      assert forall i :: 1 <= i < |xs| ==> xs[i] == xs[1..][i - 1];
    }
  }

  /** A move that ends in a different phase than a shorter known move is longer than it. */
  lemma Outlasts(m: Snapshot, xs: seq<Symbol>, end: Snapshot, known: Snapshot)
    requires Moves(m, xs, end) && Moves(m, xs, known)
    ensures end == known
  {
    MovesIsFold(m, xs, end);
    MovesIsFold(m, xs, known);
  }

  // ---- Reading a frame back ----

  /** What a completed move starts with, from a phase that awaits a frame. */
  lemma FrameComesFirst(m: Snapshot, xs: seq<Symbol>, end: Snapshot) returns (k: nat)
    requires AwaitsFrame(m) && Moves(m, xs, end) && end.state.WaitTerminator?
    ensures k <= |xs| && IsFrame(xs[..k]) && Moves(FrameRead(m, xs[..k]), xs[k..], end)
  {
    hide Moves, Next;
    MovedIsClean(m, xs, end);
    FiveSymbolsFirst(m, xs, end);
    k := 6 + xs[4].value;
    RestOfFrame(m, xs, end);
    var f := xs[..k];
    assert f[4] == xs[4];
    TakesFrame(m, f);
    MovesIsFold(m, f, FrameRead(m, f));
    MovesSplits(m, xs, k, end);
  }

  lemma FiveSymbolsFirst(m: Snapshot, xs: seq<Symbol>, end: Snapshot)
    requires AwaitsFrame(m) && Moves(m, xs, end) && end.state.WaitTerminator? && NoRaw(xs)
    ensures |xs| >= 5 && xs[4].value <= MAX_LENGTH
  {
    hide Moves;
    if |xs| < 5 {
      if xs == [] {
        MovesIsFold(m, xs, end);
      } else {
        var f := xs + xs + xs + xs;
        TakesHeader(m, f, |xs|);
        assert f[..|xs|] == xs;
        Outlasts(m, xs, end, HeaderAt(m, f, |xs|));
      }
    } else {
      MovesSplits(m, xs, 4, end);
      TakesHeader(m, xs, 4);
      MovesIsFold(m, xs[..4], HeaderAt(m, xs, 4));
      var h, rest := HeaderAt(m, xs, 4), xs[4..];
      FirstMove(h, rest, end);
      assert rest[0] == xs[4];
    }
  }

  lemma FirstMove(m: Snapshot, xs: seq<Symbol>, end: Snapshot)
    requires Moves(m, xs, end) && xs != []
    ensures Filters(m) && !IsRaw(xs[0]) && Next(m, xs[0]).1.Forward? && Moves(Next(m, xs[0]).0, xs[1..], end)
  {
  }

  lemma NoMove(m: Snapshot, end: Snapshot)
    requires Moves(m, [], end)
    ensures m == end
  {
  }

  lemma {:induction false} MasterDataOutlasts(m: Snapshot, xs: seq<Symbol>, end: Snapshot)
    requires m.state.MasterData? && m.consumed < m.masterNN && Moves(m, xs, end) && end.state.WaitTerminator?
    ensures |xs| > m.masterNN - m.consumed
    decreases xs
  {
    assert xs != [] by { if xs == [] { NoMove(m, end); } }
    var n := Next(m, xs[0]).0;
    if n.state.MasterData? {
      MasterDataOutlasts(n, xs[1..], end);
    } else {
      assert xs[1..] != [] by { if xs[1..] == [] { NoMove(n, end); } }
    }
  }

  lemma RestOfFrame(m: Snapshot, xs: seq<Symbol>, end: Snapshot)
    requires AwaitsFrame(m) && Moves(m, xs, end) && end.state.WaitTerminator? && NoRaw(xs)
    requires |xs| >= 5 && xs[4].value <= MAX_LENGTH
    ensures |xs| >= 6 + xs[4].value
  {
    hide Moves;
    var pad := xs[..5] + seq(1 + xs[4].value, i => xs[0]);
    assert pad[4] == xs[4] && pad[..5] == xs[..5];
    assert NoRaw(pad) by { assert forall i :: 5 <= i < |pad| ==> pad[i] == xs[0]; }
    TakesFiveSymbols(m, pad);
    MovesIsFold(m, xs[..5], LengthRead(m, pad));
    MovesSplits(m, xs, 5, end);
    var n := LengthRead(m, pad);
    if xs[4].value == 0 {
      assert xs[5..] != [] by { if xs[5..] == [] { NoMove(n, end); } }
    } else {
      MasterDataOutlasts(n, xs[5..], end);
    }
  }

  // ---- Reading a reply back ----

  lemma {:induction false} SlaveDataOutlasts(m: Snapshot, xs: seq<Symbol>, end: Snapshot)
    requires m.state.SlaveData? && m.consumed < m.slaveNN && Moves(m, xs, end) && end.state.WaitTerminator?
    ensures |xs| > m.slaveNN - m.consumed
    decreases xs
  {
    assert xs != [] by { if xs == [] { NoMove(m, end); } }
    var n := Next(m, xs[0]).0;
    if n.state.SlaveData? {
      SlaveDataOutlasts(n, xs[1..], end);
    } else {
      assert xs[1..] != [] by { if xs[1..] == [] { NoMove(n, end); } }
    }
  }

  lemma ReplyComesFirst(m: Snapshot, xs: seq<Symbol>, end: Snapshot) returns (k: nat)
    requires AwaitsReply(m) && Moves(m, xs, end) && end.state.WaitTerminator?
    ensures k <= |xs| && IsReply(xs[..k]) && Moves(ReplyRead(m, xs[..k]), xs[k..], end)
  {
    hide Moves;
    MovedIsClean(m, xs, end);
    assert xs != [] by { if xs == [] { NoMove(m, end); } }
    FirstMove(m, xs, end);
    var n := Next(m, xs[0]).0;
    k := 2 + xs[0].value;
    if xs[0].value == 0 {
      assert xs[1..] != [] by { if xs[1..] == [] { NoMove(n, end); } }
    } else {
      SlaveDataOutlasts(n, xs[1..], end);
    }
    var f := xs[..k];
    assert f[0] == xs[0];
    TakesReply(m, f);
    MovesIsFold(m, f, ReplyRead(m, f));
    MovesSplits(m, xs, k, end);
  }

  /** The last acknowledgement ends the move: the next phase no longer filters. */
  lemma LastAck(m: Snapshot, xs: seq<Symbol>, end: Snapshot)
    requires m.state.WaitTerminator? && Moves(m, xs, end)
    ensures xs == []
  {
  }

  lemma AckOrNack(m: Snapshot, xs: seq<Symbol>, end: Snapshot)
    requires (m.state.WaitMasterAck? || m.state.WaitSlaveAck?) && Moves(m, xs, end) && end.state.WaitTerminator?
    ensures xs != [] && Moves(Next(m, xs[0]).0, xs[1..], end)
    ensures xs[0].value == ACK || (xs[0].value == NACK && (m.state.WaitMasterAck? ==> m.masterRetx == 0) && (m.state.WaitSlaveAck? ==> m.slaveRetx == 0))
  {
    assert xs != [] by { if xs == [] { NoMove(m, end); } }
    var n := Next(m, xs[0]).0;
    if n.state.Aborted? { AbortedStays(n, xs[1..], end); }
  }

  lemma AbortedStays(m: Snapshot, xs: seq<Symbol>, end: Snapshot)
    requires m.state.Aborted? && Moves(m, xs, end)
    ensures end == m
  {
  }

  lemma RequestComesFirst(m: Snapshot, xs: seq<Symbol>, end: Snapshot) returns (r: Request, k: nat)
    requires Starts(m) && Moves(m, xs, end) && end.state.WaitTerminator?
    ensures r.Legal() && k <= |xs| && r.Wire() == xs[..k] && Moves(Fold(m, xs[..k]), xs[k..], end)
    ensures !IsBroadcast(r.frame) ==> k < |xs| && xs[k].value == ACK
    ensures IsBroadcast(r.frame) ==> k == |xs|
  {
    hide Moves, Fold, Next, IsFrame;
    var i := FrameComesFirst(m, xs, end);
    var first, rest := xs[..i], xs[i..];
    assert |first| >= 6 && first[4].value <= MAX_LENGTH by { FrameSize(first); }
    var waiting := FrameRead(m, first);
    if IsBroadcast(first) {
      LastAck(waiting, rest, end);
      r, k := Sent(first), i;
    } else {
      AckOrNack(waiting, rest, end);
      if rest[0].value == ACK {
        r, k := Sent(first), i;
      } else {
        r, k := ResentRequest(m, xs, end, i);
      }
    }
    TakesRequest(m, r);
    MovesSplits(m, xs, k, end);
  }

  lemma FrameSize(f: seq<Symbol>)
    requires IsFrame(f)
    ensures |f| >= 6 && f[4].value <= MAX_LENGTH && |f| == 6 + f[4].value
  {
  }

  lemma ResentRequest(m: Snapshot, xs: seq<Symbol>, end: Snapshot, i: nat) returns (r: Request, k: nat)
    requires Starts(m) && i < |xs| && IsFrame(xs[..i]) && !IsBroadcast(xs[..i]) && xs[i].value == NACK
    requires Moves(FrameRead(m, xs[..i]), xs[i..], end) && end.state.WaitTerminator?
    ensures r.Legal() && k <= |xs| && r.Wire() == xs[..k]
    ensures !IsBroadcast(r.frame) ==> k < |xs| && xs[k].value == ACK
    ensures IsBroadcast(r.frame) ==> k == |xs|
  {
    hide Moves, Fold, IsFrame;
    FrameSize(xs[..i]);
    var waiting, rest := FrameRead(m, xs[..i]), xs[i..];
    assert rest[0] == xs[i];
    AckOrNack(waiting, rest, end);
    var again, tail := Next(waiting, rest[0]).0, rest[1..];
    assert again.state.MasterRetx? && again.masterRetx == 1;
    var j := FrameComesFirst(again, tail, end);
    var f := tail[..j];
    FrameSize(f);
    k := i + 1 + j;
    r := SentTwice(xs[..i], xs[i], f);
    assert f == xs[i + 1..k];
    assert r.Wire() == xs[..k];
    assert tail[j..] == xs[k..];
    if IsBroadcast(f) {
      LastAck(FrameRead(again, f), tail[j..], end);
    } else {
      AckOrNack(FrameRead(again, f), tail[j..], end);
      assert tail[j..][0] == xs[k];
    }
  }

  lemma AnswerComesNext(m: Snapshot, xs: seq<Symbol>, end: Snapshot) returns (a: Answer)
    requires m.state.WaitMasterAck? && m.slaveRetx == 0 && Moves(m, xs, end) && end.state.WaitTerminator?
    requires xs != [] && xs[0].value == ACK
    ensures a.Legal() && !a.NoAnswer? && a.Wire() == xs
  {
    hide Moves, IsReply, NoRaw;
    FirstMove(m, xs, end);
    var asked, rest := Next(m, xs[0]).0, xs[1..];
    var i := ReplyComesFirst(asked, rest, end);
    var first, tail := rest[..i], rest[i..];
    ReplySize(first);
    var read := ReplyRead(asked, first);
    AckOrNack(read, tail, end);
    Rejoins(xs, i);
    if tail[0].value == ACK {
      LastAck(Next(read, tail[0]).0, tail[1..], end);
      a := Replied(xs[0], first, tail[0]);
      assert tail == [tail[0]];
    } else {
      a := ResentReply(read, xs[0], first, tail, end);
    }
  }

  lemma Rejoins(xs: seq<Symbol>, i: nat)
    requires i < |xs|
    ensures [xs[0]] + xs[1..][..i] + xs[1..][i..] == xs
  {
  }

  lemma ReplySize(f: seq<Symbol>)
    requires IsReply(f)
    ensures |f| >= 2 && f[0].value <= MAX_LENGTH && |f| == 2 + f[0].value
  {
  }

  lemma ResentReply(read: Snapshot, ack: Symbol, first: seq<Symbol>, tail: seq<Symbol>, end: Snapshot) returns (a: Answer)
    requires read.state.WaitSlaveAck? && read.slaveRetx == 0 && Moves(read, tail, end) && end.state.WaitTerminator?
    requires ack.value == ACK && IsReply(first) && tail != [] && tail[0].value == NACK
    ensures a.Legal() && !a.NoAnswer? && a.Wire() == [ack] + first + tail
  {
    hide Moves, IsReply;
    FirstMove(read, tail, end);
    var again, rest := Next(read, tail[0]).0, tail[1..];
    var j := ReplyComesFirst(again, rest, end);
    var f, close := rest[..j], rest[j..];
    ReplySize(f);
    var last := ReplyRead(again, f);
    AckOrNack(last, close, end);
    LastAck(Next(last, close[0]).0, close[1..], end);
    a := RepliedTwice(ack, first, tail[0], f, close[0]);
    assert rest == f + [close[0]];
    assert tail == [tail[0]] + rest;
  }

  /**
    Whatever the input, a run that comes back to idle has forwarded a legal telegram and its
    terminator, dropped only raw SYNs, and raised no fault.
    */
  lemma CompletedIsLegal(m: Snapshot, w: seq<Symbol>) returns (t: Telegram)
    requires Starts(m) && Completes(m, w)
    ensures t.Legal() && Passed(m, w) == t.Wire() + [Symbol(SYN, false)] && Faultless(m, w) && Fold(m, w) == CLEARED
    ensures Strip(w[..|w| - 1]) == t.Wire()
  {
    hide Moves, Fold, Passed, Faultless, Completes, Next, Strip;
    var end := CompletedRun(m, w);
    var body := w[..|w| - 1];
    t := MoveIsTelegram(m, Strip(body), end);
    assert body[|body| - 1] == w[|w| - 2];
    LegalTelegramPasses(m, t, body);
    assert w[|w| - 1] == Symbol(SYN, false);
    assert w == body + [Symbol(SYN, false)];
  }

  lemma MoveIsTelegram(m: Snapshot, xs: seq<Symbol>, end: Snapshot) returns (t: Telegram)
    requires Starts(m) && Moves(m, xs, end) && end.state.WaitTerminator?
    ensures t.Legal() && t.Wire() == xs
  {
    hide Moves, Fold, Next, Starts, NoRaw, IsRaw, IsFrame, IsReply;
    var r, k := RequestComesFirst(m, xs, end);
    TakesRequest(m, r);
    if IsBroadcast(r.frame) {
      t := Telegram(r, NoAnswer);
      assert xs[..k] == xs;
    } else {
      var a := AnswerComesNext(Fold(m, xs[..k]), xs[k..], end);
      t := Telegram(r, a);
      assert xs[..k] + xs[k..] == xs;
    }
  }

  // ---- How long a run can last ----

  /** The counters of every machine that set out from arbitration. */
  predicate Regular(m: Snapshot) {
    && m.masterRetx <= 1 && m.slaveRetx <= 1
    && (m.state.MasterHeader? ==> 1 <= m.consumed <= 4)
    && (m.state.MasterData? ==> m.consumed < m.masterNN <= MAX_LENGTH)
    && (m.state.SlaveData? ==> m.consumed < m.slaveNN <= MAX_LENGTH)
    && (m.state.MasterRetx? ==> m.masterRetx == 1) && (m.state.SlaveRetx? ==> m.slaveRetx == 1)
  }

  function AfterReply(m: Snapshot): nat {
    if m.slaveRetx == 0 then 20 else 1
  }

  function AfterFrame(m: Snapshot): nat {
    18 + 1 + AfterReply(m) + if m.masterRetx == 0 then 23 else 0
  }

  /** How many symbols at most can still be taken before the machine is idle or has aborted. */
  function Budget(m: Snapshot): nat
    requires Regular(m)
  {
    match m.state
    case Idle => 0
    case Aborted => 0
    case Arbitrating => 23 + AfterFrame(m)
    case MasterRetx => 23 + AfterFrame(m)
    case MasterHeader => 23 - m.consumed + AfterFrame(m)
    case MasterData => m.masterNN - m.consumed + 2 + AfterFrame(m)
    case MasterCrc => 2 + AfterFrame(m)
    case WaitMasterAck => 1 + AfterFrame(m)
    case SlaveLength => 19 + AfterReply(m)
    case SlaveRetx => 19 + AfterReply(m)
    case SlaveData => m.slaveNN - m.consumed + 2 + AfterReply(m)
    case SlaveCrc => 2 + AfterReply(m)
    case WaitSlaveAck => 1 + AfterReply(m)
    case WaitTerminator => 1
  }

  lemma BudgetShrinks(m: Snapshot, x: Symbol)
    requires Regular(m) && !m.state.Idle? && !m.state.Aborted?
    ensures var (n, d) := Next(m, x); Regular(n) && Budget(n) + (if d.DropInjection? then 0 else 1) <= Budget(m)
  {
    hide NextActive, Regular, Budget;
    if Filters(m) {
      if m.state.MasterHeader? {
        HeaderShrinks(m, x.value);
      } else if m.state.SlaveLength? || m.state.SlaveRetx? {
        LengthShrinks(m, x.value);
      } else if m.state.WaitMasterAck? || m.state.WaitSlaveAck? {
        AckShrinks(m, x.value);
      } else {
        PlainShrinks(m, x.value);
      }
    } else {
      TerminatorShrinks(m, x);
    }
  }

  ghost predicate Shrinks(m: Snapshot, n: Snapshot) {
    Regular(m) && Regular(n) && Budget(n) < Budget(m)
  }

  lemma TerminatorShrinks(m: Snapshot, x: Symbol)
    requires Regular(m) && m.state.WaitTerminator?
    ensures Shrinks(m, Next(m, x).0)
  {
  }

  lemma HeaderShrinks(m: Snapshot, b: byte)
    requires Regular(m) && m.state.MasterHeader?
    ensures Shrinks(m, NextActive(m, b).0) && !NextActive(m, b).1.DropInjection?
  {
  }

  lemma LengthShrinks(m: Snapshot, b: byte)
    requires Regular(m) && (m.state.SlaveLength? || m.state.SlaveRetx?)
    ensures Shrinks(m, NextActive(m, b).0) && !NextActive(m, b).1.DropInjection?
  {
  }

  lemma AckShrinks(m: Snapshot, b: byte)
    requires Regular(m) && (m.state.WaitMasterAck? || m.state.WaitSlaveAck?)
    ensures Shrinks(m, NextActive(m, b).0) && !NextActive(m, b).1.DropInjection?
  {
  }

  lemma PlainShrinks(m: Snapshot, b: byte)
    requires Regular(m) && (m.state.Arbitrating? || m.state.MasterRetx? || m.state.MasterData? || m.state.MasterCrc? || m.state.SlaveData? || m.state.SlaveCrc?)
    ensures Shrinks(m, NextActive(m, b).0) && !NextActive(m, b).1.DropInjection?
  {
  }

  ghost predicate Busy(m: Snapshot, xs: seq<Symbol>)
    decreases xs
  {
    !m.state.Idle? && !m.state.Aborted? && (xs == [] || Busy(Next(m, xs[0]).0, xs[1..]))
  }

  lemma {:induction false} BusyWithinBudget(m: Snapshot, xs: seq<Symbol>)
    requires Regular(m) && Busy(m, xs)
    ensures Regular(Fold(m, xs)) && |Passed(m, xs)| + Budget(Fold(m, xs)) <= Budget(m)
    decreases xs
  {
    hide Next, Budget;
    if xs != [] {
      BudgetShrinks(m, xs[0]);
      BusyWithinBudget(Next(m, xs[0]).0, xs[1..]);
    }
  }

  /** From arbitration, every input is over within 85 symbols that were not dropped. */
  lemma EndsWithin85(m: Snapshot, xs: seq<Symbol>)
    requires Starts(m) && Busy(m, xs)
    ensures |Passed(m, xs)| < 85
  {
    BusyWithinBudget(m, xs);
    BusyHasBudget(m, xs);
  }

  lemma {:induction false} BusyHasBudget(m: Snapshot, xs: seq<Symbol>)
    requires Regular(m) && Busy(m, xs)
    ensures Regular(Fold(m, xs)) && Budget(Fold(m, xs)) > 0
    decreases xs
  {
    hide Next;
    if xs != [] {
      BudgetShrinks(m, xs[0]);
      BusyHasBudget(Next(m, xs[0]).0, xs[1..]);
    }
  }

  /** The bound is met: the longest legal telegram takes exactly 85 symbols. */
  lemma BoundIsTight(m: Snapshot) returns (t: Telegram)
    requires Starts(m)
    ensures t.Legal() && Passed(m, t.Wire() + [Symbol(SYN, false)]) == t.Wire() + [Symbol(SYN, false)]
    ensures |t.Wire() + [Symbol(SYN, false)]| == 85
  {
    hide Passed, Fold, Faultless;
    var frame := seq(4, i => Symbol(1, false)) + [Symbol(16, false)] + seq(17, i => Symbol(1, false));
    var reply := [Symbol(16, false)] + seq(17, i => Symbol(1, false));
    var ack, nack := Symbol(ACK, false), Symbol(NACK, false);
    t := Telegram(SentTwice(frame, nack, frame), RepliedTwice(ack, reply, nack, reply, ack));
    var w := t.Wire();
    assert NoRaw(frame) && NoRaw(reply);
    CleanStrips(w);
    LegalTelegramPasses(m, t, w);
  }

  lemma {:induction false} CleanStrips(xs: seq<Symbol>)
    requires NoRaw(xs)
    ensures Strip(xs) == xs
    decreases xs
  {
    if xs != [] { CleanStrips(xs[1..]); }
  }
}
