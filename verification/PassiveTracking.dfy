/** Tracking a foreign telegram: the same automaton, entered behind the first symbol and masked to callers. */
module PassiveTracking {
  import opened Octets
  import opened TelegramFsm
  import opened TelegramRuns
  import opened TelegramBounds

  /** The passive flag plays no part in any decision; it lasts until the machine is cleared. */
  lemma FlagIsApart(m: Snapshot, b: bool, x: Symbol)
    ensures var (n, d) := Next(m, x);
      Next(m.(passive := b), x) == (if m.state.WaitTerminator? && IsRaw(x) then n else n.(passive := b), d)
  {
  }

  /** The active machine in the same phase. */
  const ACTIVE := TRACKING.(passive := false)

  const ARBITRATED := CLEARED.(state := Arbitrating)

  lemma FirstSymbolTaken(q: Symbol)
    requires !IsRaw(q)
    ensures Next(ARBITRATED, q) == (ACTIVE, Forward)
  {
  }

  /** Up to the point where it is cleared, a passive run is the active one with the flag set. */
  lemma {:induction false} RunsAlike(m: Snapshot, xs: seq<Symbol>)
    requires m.passive && (forall i :: 0 <= i <= |xs| ==> !Fold(m.(passive := false), xs[..i]).state.Idle?)
    ensures Fold(m, xs) == Fold(m.(passive := false), xs).(passive := true)
    ensures Passed(m, xs) == Passed(m.(passive := false), xs) && (Faultless(m, xs) <==> Faultless(m.(passive := false), xs))
    decreases xs
  {
    hide Next;
    if xs != [] {
      var a := m.(passive := false);
      var n := Next(a, xs[0]).0;
      FlagIsApart(a, true, xs[0]);
      assert a.(passive := true) == m;
      OneFold(a, xs);
      NotCleared(a, xs[0]);
      forall i | 0 <= i <= |xs| - 1
        ensures !Fold(n, xs[1..][..i]).state.Idle?
      {
        assert xs[..i + 1][0] == xs[0] && xs[..i + 1][1..] == xs[1..][..i];
      }
      NeverSetsFlag(a, xs[0]);
      assert n.(passive := true).(passive := false) == n;
      RunsAlike(n.(passive := true), xs[1..]);
    }
  }

  lemma OneFold(m: Snapshot, xs: seq<Symbol>)
    requires xs != []
    ensures Fold(m, xs[..1]) == Next(m, xs[0]).0
  {
    assert xs[..1] == [xs[0]];
    LastStep(m, xs[0]);
  }

  lemma NotCleared(m: Snapshot, x: Symbol)
    requires !Next(m, x).0.state.Idle?
    ensures !(m.state.WaitTerminator? && IsRaw(x))
  {
  }

  lemma NeverSetsFlag(m: Snapshot, x: Symbol)
    requires !m.passive
    ensures !Next(m, x).0.passive
  {
  }

  /** On its way through a legal telegram the machine is neither idle nor aborted, whatever is injected. */
  lemma {:induction false} StaysBusy(m: Snapshot, w: seq<Symbol>, end: Snapshot, i: nat)
    requires Moves(m, Strip(w), end) && Filters(m) && end.state.WaitTerminator? && i <= |w|
    requires w == [] || !IsRaw(w[|w| - 1])
    ensures !Fold(m, w[..i]).state.Idle? && !Fold(m, w[..i]).state.Aborted?
    decreases w
  {
    hide Next;
    if i == 0 {
      assert w[..0] == [];
    } else {
      var rest := w[1..];
      assert rest == [] || rest[|rest| - 1] == w[|w| - 1];
      assert w[..i][0] == w[0] && w[..i][1..] == rest[..i - 1];
      if IsRaw(w[0]) {
        InjectionStutters(m, w[0]);
        assert Strip(w) == Strip(rest);
        StaysBusy(m, rest, end, i - 1);
      } else {
        assert Strip(w)[0] == w[0] && Strip(w)[1..] == Strip(rest);
        var n := Next(m, w[0]).0;
        if rest == [] {
          assert Strip(rest) == [] && n == end;
          assert rest[..i - 1] == [];
        } else {
          StripKeepsLast(rest);
          StaysBusy(n, rest, end, i - 1);
        }
      }
    }
  }

  lemma WireStarts(t: Telegram)
    requires t.Legal()
    ensures |t.Wire()| >= 6 && !IsRaw(t.Wire()[0])
  {
  }

  /** The active run behind the first symbol is the run from arbitration without it. */
  lemma BehindFirst(q: Symbol, xs: seq<Symbol>)
    requires !IsRaw(q)
    ensures Fold(ARBITRATED, [q] + xs) == Fold(ACTIVE, xs) && Passed(ARBITRATED, [q] + xs) == [q] + Passed(ACTIVE, xs)
    ensures Faultless(ARBITRATED, [q] + xs) <==> Faultless(ACTIVE, xs)
  {
    hide Next;
    FirstSymbolTaken(q);
    assert ([q] + xs)[1..] == xs;
  }

  lemma Rejoined(wire: seq<Symbol>, w: seq<Symbol>)
    requires wire != [] && !IsRaw(wire[0]) && Strip(w) == wire[1..] && w != [] && !IsRaw(w[|w| - 1])
    ensures Strip([wire[0]] + w) == wire && !IsRaw(([wire[0]] + w)[|w|])
  {
    StripOne(wire[0], w);
    assert wire == [wire[0]] + wire[1..];
  }

  lemma ActivePrefixes(t: Telegram, w: seq<Symbol>, i: nat)
    requires t.Legal() && Strip(w) == t.Wire()[1..] && w != [] && !IsRaw(w[|w| - 1]) && i <= |w|
    ensures !Fold(ACTIVE, w[..i]).state.Idle? && !Fold(ACTIVE, w[..i]).state.Aborted?
  {
    hide Fold, Next, Moves, Strip, Telegram.Wire, Telegram.Legal, Request.Wire, Answer.Wire;
    WireStarts(t);
    var q := t.Wire()[0];
    TakesTelegram(ARBITRATED, t);
    Rejoined(t.Wire(), w);
    StaysBusy(ARBITRATED, [q] + w, Fold(ARBITRATED, t.Wire()), i + 1);
    assert ([q] + w)[..i + 1] == [q] + w[..i];
    BehindFirst(q, w[..i]);
  }

  /**
    A legal telegram tracked behind its first symbol passes exactly, whatever raw SYNs are injected
    before its last symbol; callers see the composite state throughout and idle at the end.
    */
  lemma TrackedTelegramPasses(t: Telegram, w: seq<Symbol>)
    requires t.Legal() && Strip(w) == t.Wire()[1..] && w != [] && !IsRaw(w[|w| - 1])
    ensures var all := w + [Symbol(SYN, false)];
      && Fold(TRACKING, all) == CLEARED && Seen(Fold(TRACKING, all)) == Some(Idle)
      && Passed(TRACKING, all) == t.Wire()[1..] + [Symbol(SYN, false)] && Faultless(TRACKING, all)
      && forall i :: 0 <= i <= |w| ==> Seen(Fold(TRACKING, w[..i])) == None
  {
    hide Fold, Passed, Faultless, Strip, Moves;
    var last := Symbol(SYN, false);
    WireStarts(t);
    ActiveEnd(t, w);
    forall i | 0 <= i <= |w|
      ensures Fold(TRACKING, w[..i]) == Fold(ACTIVE, w[..i]).(passive := true) && Seen(Fold(TRACKING, w[..i])) == None
    {
      PrefixAlike(t, w, i);
    }
    assert w[..|w|] == w;
    PrefixOutput(t, w);
    RunsOn(TRACKING, w, [last]);
    LastStep(Fold(TRACKING, w), last);
  }

  lemma PrefixAlike(t: Telegram, w: seq<Symbol>, i: nat)
    requires t.Legal() && Strip(w) == t.Wire()[1..] && w != [] && !IsRaw(w[|w| - 1]) && i <= |w|
    ensures Fold(TRACKING, w[..i]) == Fold(ACTIVE, w[..i]).(passive := true) && Seen(Fold(TRACKING, w[..i])) == None
    ensures Passed(TRACKING, w[..i]) == Passed(ACTIVE, w[..i]) && (Faultless(TRACKING, w[..i]) <==> Faultless(ACTIVE, w[..i]))
  {
    hide Fold, Passed, Faultless, Strip;
    forall k | 0 <= k <= i
      ensures !Fold(ACTIVE, w[..i][..k]).state.Idle?
    {
      assert w[..i][..k] == w[..k];
      ActivePrefixes(t, w, k);
    }
    RunsAlike(TRACKING, w[..i]);
    ActivePrefixes(t, w, i);
  }

  lemma PrefixOutput(t: Telegram, w: seq<Symbol>)
    requires t.Legal() && Strip(w) == t.Wire()[1..] && w != [] && !IsRaw(w[|w| - 1])
    ensures Passed(TRACKING, w) == t.Wire()[1..] && Faultless(TRACKING, w)
  {
    hide Fold, Passed, Faultless, Strip;
    assert w[..|w|] == w;
    PrefixAlike(t, w, |w|);
    ActiveEnd(t, w);
  }

  /** The active run up to the terminator. */
  lemma ActiveEnd(t: Telegram, w: seq<Symbol>)
    requires t.Legal() && Strip(w) == t.Wire()[1..] && w != [] && !IsRaw(w[|w| - 1])
    ensures Fold(ACTIVE, w).state.WaitTerminator? && Passed(ACTIVE, w) == t.Wire()[1..] && Faultless(ACTIVE, w)
  {
    hide Fold, Passed, Faultless, Moves, Strip, Telegram.Wire, Telegram.Legal, Request.Wire, Answer.Wire;
    WireStarts(t);
    var q := t.Wire()[0];
    Rejoined(t.Wire(), w);
    TakesTelegram(ARBITRATED, t);
    InjectionsInvisible(ARBITRATED, [q] + w, Fold(ARBITRATED, t.Wire()));
    BehindFirst(q, w);
    assert ([q] + Passed(ACTIVE, w))[1..] == Passed(ACTIVE, w);
  }

  /** Every tracked input is over within 84 symbols that were not dropped. */
  lemma TrackedEndsWithin84(xs: seq<Symbol>)
    requires Busy(TRACKING, xs)
    ensures |Passed(TRACKING, xs)| < 84
  {
    BusyWithinBudget(TRACKING, xs);
    BusyHasBudget(TRACKING, xs);
  }

  lemma {:induction false} CompletesAlike(m: Snapshot, w: seq<Symbol>)
    requires m.passive && Completes(m, w)
    ensures Completes(m.(passive := false), w)
    decreases w
  {
    hide Next;
    var a := m.(passive := false);
    FlagIsApart(a, true, w[0]);
    assert a.(passive := true) == m;
    NeverSetsFlag(a, w[0]);
    if |w| > 1 {
      IdleNeverCompletes(Next(m, w[0]).0, w[1..]);
      ClearedIsIdle(a, w[0]);
      var n := Next(a, w[0]).0;
      assert n.(passive := true).(passive := false) == n;
      CompletesAlike(n.(passive := true), w[1..]);
    }
  }

  lemma ClearedIsIdle(m: Snapshot, x: Symbol)
    ensures m.state.WaitTerminator? && IsRaw(x) ==> Next(m, x).0.state.Idle?
  {
  }

  lemma IdleNeverCompletes(m: Snapshot, w: seq<Symbol>)
    requires Completes(m, w)
    ensures !m.state.Idle?
  {
  }

  /** Whatever follows a foreign first symbol, a tracked run that comes back to idle was a legal telegram. */
  lemma TrackedIsLegal(q: Symbol, w: seq<Symbol>) returns (t: Telegram)
    requires !IsRaw(q) && Completes(TRACKING, w)
    ensures t.Legal() && t.Wire() == [q] + Strip(w[..|w| - 1]) && IsRaw(w[|w| - 1])
  {
    hide Fold, Passed, Faultless, Next, Moves, Telegram.Wire, Telegram.Legal, Request.Wire, Answer.Wire;
    CompletesAlike(TRACKING, w);
    FirstSymbolTaken(q);
    var all := [q] + w;
    assert all[1..] == w && |all| > 1;
    t := CompletedIsLegal(ARBITRATED, all);
    var end := CompletedRun(ARBITRATED, all);
    assert all[|all| - 1] == w[|w| - 1];
    assert all[..|all| - 1] == [q] + w[..|w| - 1];
    StripOne(q, w[..|w| - 1]);
  }
}
