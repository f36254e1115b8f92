/**
  The bus retry loop against an adversary that decides how every attempt ends. Errors are the sets
  of classes they match, since one error may wrap several.
  */
module Retry {
  import opened Octets

  datatype Class = HostError | Collision | AdapterReset | Timeout | CrcMismatch | Nack | Other

  type Error = set<Class>

  datatype Policy = Policy(timeoutRetries: int, nackRetries: int)

  datatype Config = Config(policy: Policy, reconnectRetries: int, reconnectable: bool)

  /** How one attempt goes: every wait may be cut short by a context, every step may fail. */
  datatype Attempt = Attempt(
    cancelled: Option<Error>, arbitration: Option<Error>, transaction: Option<Error>, token: nat,
    backoffCut: Option<Error>, synError: Option<Error>, resetCut: Option<Error>, reconnectCut: bool, reconnectFails: bool)

  datatype Decision = TryAgain | Abandon

  datatype Event = Begins | Obtained(token: nat) | Completed(token: nat, decision: Decision)

  /** Zero tokens need no completion. */
  function Completion(token: nat, d: Decision): seq<Event> {
    if token == 0 then [] else [Completed(token, d)]
  }

  // ---- Budgets ----

  function Positive(n: int): nat {
    if n > 0 then n else 0
  }

  function SessionAttempts(p: Policy): nat {
    Positive(p.timeoutRetries) + Positive(p.nackRetries) + 1
  }

  function MaxAttempts(c: Config): nat {
    (Positive(c.reconnectRetries) + 1) * SessionAttempts(c.policy)
  }

  datatype Spent = Spent(timeouts: nat, nacks: nat)

  function ShouldRetry(err: Error, p: Policy, s: Spent, bounded: bool): (bool, Spent)
  {
    if HostError in err then (false, s)
    else if Collision in err then
      if bounded then (true, s)
      else if s.timeouts < p.timeoutRetries then (true, s.(timeouts := s.timeouts + 1)) else (false, s)
    else if AdapterReset in err then
      if s.timeouts < p.timeoutRetries then (true, s.(timeouts := s.timeouts + 1)) else (false, s)
    else if Timeout in err then (false, s)
    else if CrcMismatch in err && s.timeouts < p.timeoutRetries then (true, s.(timeouts := s.timeouts + 1))
    else if Nack in err && s.nacks < p.nackRetries then (true, s.(nacks := s.nacks + 1))
    else (false, s)
  }

  /**
    When a retry follows, class by class: never after a host error; after a collision always under a
    deadline and else within the timeout budget; after an adapter reset within it; after a timeout
    never; after a CRC mismatch within it, and after a NACK within its own. Each retry but the
    collision under a deadline costs one of its budget, and nothing else does.
    */
  lemma RetryByClass(err: Error, p: Policy, s: Spent, bounded: bool)
    ensures var (retry, spent) := ShouldRetry(err, p, s, bounded);
      var timed, nacked := s.(timeouts := s.timeouts + 1), s.(nacks := s.nacks + 1);
      && (HostError in err ==> !retry)
      && (Collision in err && HostError !in err ==> (retry <==> bounded || s.timeouts < p.timeoutRetries) && (retry ==> spent == if bounded then s else timed))
      && (AdapterReset in err && HostError !in err && Collision !in err ==> (retry <==> s.timeouts < p.timeoutRetries) && (retry ==> spent == timed))
      && (Timeout in err && HostError !in err && Collision !in err && AdapterReset !in err ==> !retry)
      && (HostError !in err && Collision !in err && AdapterReset !in err && Timeout !in err ==>
            && (CrcMismatch in err && s.timeouts < p.timeoutRetries ==> retry && spent == timed)
            && (!(CrcMismatch in err && s.timeouts < p.timeoutRetries) ==>
                  (retry <==> Nack in err && s.nacks < p.nackRetries) && (retry ==> spent == nacked)))
      && (!retry ==> spent == s)
  {
  }

  predicate Reconnects(c: Config, err: Error, reconnects: nat) {
    && c.reconnectRetries > 0 && (Timeout in err || AdapterReset in err || CrcMismatch in err)
    && c.reconnectable && reconnects < c.reconnectRetries
  }

  // ---- Tokens ----

  /**
    Reading a log from the left: a nonzero token is completed once, with its own number, before the
    next attempt begins or another token is obtained. The result is what is still owed.
    */
  function Owed(log: seq<Event>): Option<Option<nat>> {
    if log == [] then Some(None)
    else
      var before := Owed(log[..|log| - 1]);
      if before.None? then None
      else
        match log[|log| - 1]
        case Begins => if before.value.None? then Some(None) else None
        case Obtained(token) => if before.value.None? then Some(if token == 0 then None else Some(token)) else None
        case Completed(token, _) => if before.value == Some(token) then Some(None) else None
  }

  predicate Settled(log: seq<Event>) {
    Owed(log) == Some(None)
  }

  lemma OwedOn(log: seq<Event>, e: Event)
    ensures Owed(log + [e]) ==
      if Owed(log).None? then None
      else
        match e
        case Begins => if Owed(log).value.None? then Some(None) else None
        case Obtained(token) => if Owed(log).value.None? then Some(if token == 0 then None else Some(token)) else None
        case Completed(token, _) => if Owed(log).value == Some(token) then Some(None) else None
  {
    assert (log + [e])[..|log|] == log;
  }

  lemma BeginSettles(log: seq<Event>)
    requires Settled(log)
    ensures Settled(log + [Begins])
  {
    OwedOn(log, Begins);
  }

  lemma TokenSettles(log: seq<Event>, token: nat, d: Decision)
    requires Settled(log)
    ensures Settled(log + [Obtained(token)] + Completion(token, d))
  {
    OwedOn(log, Obtained(token));
    if token == 0 {
      assert log + [Obtained(token)] + [] == log + [Obtained(token)];
    } else {
      OwedOn(log + [Obtained(token)], Completed(token, d));
    }
  }

  function Count(log: seq<Event>, token: nat, obtained: bool): nat {
    if log == [] then 0
    else
      var e := log[|log| - 1];
      Count(log[..|log| - 1], token, obtained) +
      if (obtained && e == Obtained(token)) || (!obtained && e.Completed? && e.token == token) then 1 else 0
  }

  /** In a settled log every nonzero token is completed exactly as often as it was obtained. */
  lemma {:induction false} SettledBalances(log: seq<Event>, token: nat)
    requires Owed(log).Some? && token != 0
    ensures Count(log, token, true) == Count(log, token, false) + if Owed(log).value == Some(token) then 1 else 0
    decreases log
  {
    if log != [] { SettledBalances(log[..|log| - 1], token); }
  }

  // ---- The loop ----

  datatype Outcome = Success | Failure(error: Error)

  /** The counters of the loop. */
  datatype Counters = Counters(spent: Spent, reconnects: nat)

  predicate Within(c: Config, k: Counters) {
    && k.spent.timeouts <= Positive(c.policy.timeoutRetries) && k.spent.nacks <= Positive(c.policy.nackRetries)
    && k.reconnects <= Positive(c.reconnectRetries)
  }

  /** The number of attempts the counters can account for. */
  function Accounted(c: Config, k: Counters): nat {
    k.reconnects * SessionAttempts(c.policy) + k.spent.timeouts + k.spent.nacks
  }

  lemma AccountedFits(c: Config, k: Counters)
    requires Within(c, k)
    ensures Accounted(c, k) + 1 <= MaxAttempts(c)
  {
    var b := SessionAttempts(c.policy);
    Scales(k.reconnects, Positive(c.reconnectRetries), b);
    assert MaxAttempts(c) == Positive(c.reconnectRetries) * b + b;
  }

  lemma Scales(a: nat, b: nat, n: nat)
    requires a <= b
    ensures a * n <= b * n
  {
  }

  lemma ReconnectAccounts(c: Config, k: Counters)
    requires Within(c, k)
    ensures Accounted(c, k) + 1 <= Accounted(c, Counters(Spent(0, 0), k.reconnects + 1))
    ensures Accounted(c, k) + 1 <= Accounted(c, k.(reconnects := k.reconnects + 1))
  {
    var b := SessionAttempts(c.policy);
    assert (k.reconnects + 1) * b == k.reconnects * b + b;
  }

  /** Without a deadline every retry is paid for; with one only collisions are free. */
  lemma RetryAccounts(c: Config, k: Counters, err: Error, bounded: bool)
    requires Within(c, k) && ShouldRetry(err, c.policy, k.spent, bounded).0
    ensures HostError !in err
    ensures var next := k.(spent := ShouldRetry(err, c.policy, k.spent, bounded).1);
      && Within(c, next)
      && (if bounded && Collision in err then next == k else Accounted(c, next) == Accounted(c, k) + 1 && Left(c, next) + 1 == Left(c, k))
  {
  }

  function Left(c: Config, k: Counters): nat
    requires Within(c, k)
  {
    Positive(c.policy.timeoutRetries) - k.spent.timeouts + Positive(c.policy.nackRetries) - k.spent.nacks
  }

  /** The error that always finds budget left: CRC, then NACK, then CRC again for a reconnect. */
  function WorstError(c: Config, k: Counters): Error {
    if k.spent.timeouts >= c.policy.timeoutRetries && k.spent.nacks < c.policy.nackRetries then {Nack} else {CrcMismatch}
  }

  function WorstNext(c: Config, k: Counters): Option<Counters> {
    var err := WorstError(c, k);
    var (retry, spent) := ShouldRetry(err, c.policy, k.spent, false);
    if retry then Some(k.(spent := spent))
    else if Reconnects(c, err, k.reconnects) then Some(Counters(Spent(0, 0), k.reconnects + 1))
    else None
  }

  /** An attempt that ends in the worst error for these counters, with nothing cut short and reconnects succeeding. */
  predicate IsWorst(c: Config, a: Attempt, k: Counters) {
    && a.cancelled.None? && a.arbitration.None? && a.transaction == Some(WorstError(c, k))
    && !a.reconnectCut && !a.reconnectFails
  }

  /** The counters before attempt i while every attempt so far was the worst and led to another. */
  function WorstCounters(c: Config, i: nat): Option<Counters> {
    if i == 0 then Some(Counters(Spent(0, 0), 0))
    else
      var before := WorstCounters(c, i - 1);
      if before.None? then None else WorstNext(c, before.value)
  }

  ghost predicate AlwaysWorst(c: Config, env: nat -> Attempt) {
    forall i: nat :: WorstCounters(c, i).Some? ==> IsWorst(c, env(i), WorstCounters(c, i).value)
  }

  /** The adversary that always does its worst. */
  function WorstEnv(c: Config): nat -> Attempt {
    (i: nat) =>
      var err := if WorstCounters(c, i).Some? then WorstError(c, WorstCounters(c, i).value) else {Other};
      Attempt(None, None, Some(err), 0, None, None, None, false, false)
  }

  lemma WorstEnvIsWorst(c: Config)
    ensures AlwaysWorst(c, WorstEnv(c))
  {
    forall i: nat | WorstCounters(c, i).Some?
      ensures IsWorst(c, WorstEnv(c)(i), WorstCounters(c, i).value)
    {
    }
  }

  lemma NothingAccounted(c: Config)
    ensures Accounted(c, Counters(Spent(0, 0), 0)) == 0
  {
  }

  /** Each worst attempt uses exactly one of the attempts the policy allows, and the last one uses the last. */
  lemma WorstAccounts(c: Config, k: Counters)
    requires Within(c, k) && c.reconnectable
    ensures WorstNext(c, k).None? ==> Accounted(c, k) + 1 == MaxAttempts(c)
    ensures WorstNext(c, k).Some? ==> Within(c, WorstNext(c, k).value) && Accounted(c, WorstNext(c, k).value) == Accounted(c, k) + 1
  {
    var b := SessionAttempts(c.policy);
    assert (k.reconnects + 1) * b == k.reconnects * b + b;
  }

  /** tryTransportReconnect: whether the loop goes on, and with which counters. */
  method TryReconnect(c: Config, a: Attempt, err: Error, k: Counters) returns (again: bool, next: Counters)
    requires Within(c, k)
    ensures Within(c, next)
    ensures again <==> Reconnects(c, err, k.reconnects) && !a.reconnectCut
    ensures again ==> next.reconnects == k.reconnects + 1
    ensures again ==> next.spent == if a.reconnectFails then k.spent else Spent(0, 0)
    ensures !again ==> next == if Reconnects(c, err, k.reconnects) then k.(reconnects := k.reconnects + 1) else k
  {
    if !Reconnects(c, err, k.reconnects) { return false, k; }
    next := k.(reconnects := k.reconnects + 1);
    if a.reconnectCut { return false, next; }
    if a.reconnectFails { return true, next; }
    return true, next.(spent := Spent(0, 0));
  }

  /** The pause after a collision: its token is completed on every way out. */
  method Recover(a: Attempt, log: seq<Event>) returns (stop: Option<Error>, full: seq<Event>)
    requires Settled(log)
    ensures Settled(full)
    ensures stop == if a.backoffCut.Some? then a.backoffCut else a.synError
    ensures full == log + [Obtained(a.token)] + Completion(a.token, if stop.Some? then Abandon else TryAgain)
  {
    hide Settled;
    full := log + [Obtained(a.token)];
    TokenSettles(log, a.token, Abandon);
    TokenSettles(log, a.token, TryAgain);
    if a.backoffCut.Some? { return a.backoffCut, full + Completion(a.token, Abandon); }
    if a.synError.Some? { return a.synError, full + Completion(a.token, Abandon); }
    return None, full + Completion(a.token, TryAgain);
  }

  predicate Succeeds(a: Attempt) {
    a.cancelled.None? && a.arbitration.None? && a.transaction.None?
  }

  /** The error of an attempt that began and failed. */
  function Failed(a: Attempt): Error
    requires !Succeeds(a)
  {
    if a.cancelled.Some? then a.cancelled.value
    else if a.arbitration.Some? then a.arbitration.value
    else if a.transaction.Some? then a.transaction.value else {}
  }

  /** What cuts short the way to a retry that the budget allows: the pause after a collision, or after a reset. */
  function CutShort(a: Attempt): Option<Error>
    requires !Succeeds(a)
  {
    var err := Failed(a);
    if Collision in err && a.backoffCut.Some? then a.backoffCut
    else if Collision in err && a.synError.Some? then a.synError
    else if Collision in err && a.arbitration.Some? then None
    else if AdapterReset in err then a.resetCut
    else None
  }

  /** Where an attempt leads: to an end, or to another attempt with these counters. */
  function Leads(c: Config, a: Attempt, k: Counters, bounded: bool): (Option<Outcome>, Counters) {
    if Succeeds(a) then (Some(Success), k)
    else
      var err := Failed(a);
      var (retry, spent) := ShouldRetry(err, c.policy, k.spent, bounded);
      if a.cancelled.Some? then (Some(Failure(err)), k)
      else if retry then
        (if CutShort(a).Some? then Some(Failure(CutShort(a).value)) else None, k.(spent := spent))
      else if (Collision in err && a.arbitration.Some?) || !Reconnects(c, err, k.reconnects) then (Some(Failure(err)), k)
      else
        (if a.reconnectCut then Some(Failure(err)) else None,
         k.(reconnects := k.reconnects + 1, spent := if a.reconnectCut || a.reconnectFails then k.spent else Spent(0, 0)))
  }

  /** The counters before attempt i, if every attempt so far led to another. */
  function CountersAt(c: Config, env: nat -> Attempt, bounded: bool, i: nat): Option<Counters> {
    if i == 0 then Some(Counters(Spent(0, 0), 0))
    else
      var before := CountersAt(c, env, bounded, i - 1);
      if before.None? then None
      else
        var (result, next) := Leads(c, env(i - 1), before.value, bounded);
        if result.Some? then None else Some(next)
  }

  /** What one attempt leads to: a result, or another attempt. */
  method RunAttempt(c: Config, a: Attempt, k: Counters, bounded: bool, log: seq<Event>)
    returns (result: Option<Outcome>, next: Counters, full: seq<Event>)
    requires Within(c, k) && Settled(log)
    ensures Settled(full) && Within(c, next)
    ensures result == Some(Success) <==> Succeeds(a)
    ensures (result, next) == Leads(c, a, k, bounded)
    ensures result.None? ==> a.cancelled.None?
    ensures IsWorst(c, a, k) && !bounded ==> (result.None? <==> WorstNext(c, k).Some?) && (result.None? ==> next == WorstNext(c, k).value)
    ensures result.None? && !bounded ==>
      && Accounted(c, k) + 1 <= Accounted(c, next)
      && (next.reconnects > k.reconnects || (next.reconnects == k.reconnects && Left(c, next) < Left(c, k)))
  {
    hide Accounted, ShouldRetry, Settled, Left, Reconnects;
    assert WorstError(c, k) == {Nack} || WorstError(c, k) == {CrcMismatch};
    full, next := log, k;
    if a.cancelled.Some? { return Some(Failure(a.cancelled.value)), next, full; }
    BeginSettles(full);
    full := full + [Begins];
    if a.arbitration.None? && a.transaction.None? { return Some(Success), next, full; }
    var arbitrating := a.arbitration.Some?;
    var err := if arbitrating then a.arbitration.value else a.transaction.value;
    var (retry, spent) := ShouldRetry(err, c.policy, k.spent, bounded);
    if retry {
      RetryAccounts(c, k, err, bounded);
      next := k.(spent := spent);
      if Collision in err {
        var stop;
        stop, full := Recover(a, full);
        if stop.Some? { return Some(Failure(stop.value)), next, full; }
        if arbitrating { return None, next, full; }
      }
      if AdapterReset in err && a.resetCut.Some? { return Some(Failure(a.resetCut.value)), next, full; }
      return None, next, full;
    }
    if Collision in err {
      TokenSettles(full, a.token, Abandon);
      full := full + [Obtained(a.token)] + Completion(a.token, Abandon);
      if arbitrating { return Some(Failure(err)), next, full; }
    }
    var again;
    again, next := TryReconnect(c, a, err, k);
    if !again { return Some(Failure(err)), next, full; }
    ReconnectAccounts(c, k);
    return None, next, full;
  }

  /**
    env says how the i-th attempt goes; a deadline is the attempt by which the context is over.
    Without one the policy alone bounds the attempts, whatever the errors are. Every nonzero token
    obtained is completed exactly once, before the next attempt or the return. Attempts follow each
    other exactly as each one leads on, and the result is that of the last. The bound is met: an
    adversary that always answers with the worst error makes the loop use every attempt.
    */
  method SendWithRetries(c: Config, env: nat -> Attempt, deadline: Option<nat>) returns (result: Outcome, attempts: nat, log: seq<Event>)
    requires deadline.Some? ==> env(deadline.value).cancelled.Some?
    ensures attempts > 0 && (deadline.None? ==> attempts <= MaxAttempts(c))
    ensures deadline.Some? ==> attempts <= deadline.value + 1
    ensures Settled(log)
    ensures result == Success <==> Succeeds(env(attempts - 1))
    ensures forall i: nat :: i < attempts - 1 ==> !Succeeds(env(i)) && env(i).cancelled.None?
    ensures deadline.None? && c.reconnectable && AlwaysWorst(c, env) ==> attempts == MaxAttempts(c)
    ensures var last := CountersAt(c, env, deadline.Some?, attempts - 1);
      last.Some? && Leads(c, env(attempts - 1), last.value, deadline.Some?).0 == Some(result)
  {
    hide Accounted, MaxAttempts, Left, WorstNext, Leads;
    log, attempts := [], 0;
    var k := Counters(Spent(0, 0), 0);
    NothingAccounted(c);
    while true
      invariant Within(c, k) && Settled(log)
      invariant CountersAt(c, env, deadline.Some?, attempts) == Some(k)
      invariant deadline.None? ==> attempts <= Accounted(c, k)
      invariant deadline.Some? ==> attempts <= deadline.value
      invariant forall i: nat :: i < attempts ==> !Succeeds(env(i)) && env(i).cancelled.None?
      invariant deadline.None? && c.reconnectable && AlwaysWorst(c, env) ==>
        WorstCounters(c, attempts) == Some(k) && Accounted(c, k) == attempts
      decreases if deadline.Some? then deadline.value + 1 - attempts else 0, Positive(c.reconnectRetries) - k.reconnects, Left(c, k)
    {
      AccountedFits(c, k);
      var a := env(attempts);
      if c.reconnectable { WorstAccounts(c, k); }
      attempts := attempts + 1;
      var outcome;
      outcome, k, log := RunAttempt(c, a, k, deadline.Some?, log);
      if outcome.Some? { return outcome.value, attempts, log; }
    }
  }
}
