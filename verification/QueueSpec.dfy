/**
  What the request queue promises: priority by source address, first come first served within a
  source, and no starvation. Requests are named by the number under which they were pushed.
  */
module QueueSpec {
  import opened Octets

  const STARVATION := 8
  const TRANSPORT_PRIORITY := 0x80

  datatype Request = Request(source: byte, transportOp: bool, payload: nat)

  function Priority(r: Request): byte {
    if r.transportOp then TRANSPORT_PRIORITY else r.source
  }

  datatype Entry = Entry(request: Request, priority: byte, age: nat)

  datatype Queue = Queue(entries: map<nat, Entry>, next: nat)

  function Push(q: Queue, r: Request): Queue {
    Queue(q.entries[q.next := Entry(r, Priority(r), 0)], q.next + 1)
  }

  /** One pop older; a starved entry moves to the highest priority. */
  function Older(e: Entry): Entry {
    e.(age := e.age + 1, priority := if e.age + 1 >= STARVATION then 0 else e.priority)
  }

  function Aged(entries: map<nat, Entry>): map<nat, Entry> {
    map id | id in entries :: Older(entries[id])
  }

  /** a is served no later than b. */
  predicate Precedes(entries: map<nat, Entry>, a: nat, b: nat)
    requires a in entries && b in entries
  {
    entries[a].priority < entries[b].priority || (entries[a].priority == entries[b].priority && a <= b)
  }

  ghost predicate First(entries: map<nat, Entry>, id: nat) {
    id in entries && forall k :: k in entries ==> Precedes(entries, id, k)
  }

  /** A pop of id from q: everyone ages, and id is first among them. */
  ghost predicate Pops(q: Queue, id: nat, q': Queue) {
    First(Aged(q.entries), id) && q' == q.(entries := Aged(q.entries) - {id})
  }

  datatype Step = Pushed(r: Request) | Popped(id: nat)

  ghost predicate Moves(q: Queue, s: Step, q': Queue) {
    match s case Pushed(r) => q' == Push(q, r) case Popped(id) => Pops(q, id, q')
  }

  ghost predicate Run(q: Queue, trace: seq<Step>, states: seq<Queue>) {
    && |states| == |trace| + 1 && states[0] == q
    && forall i :: 0 <= i < |trace| ==> Moves(states[i], trace[i], states[i + 1])
  }

  // ---- Order within a source ----

  /** Whoever came first has aged at least as much, and an entry of the same rank never overtakes. */
  ghost predicate Fair(q: Queue) {
    && (forall id :: id in q.entries ==> id < q.next)
    && (forall id :: id in q.entries ==> EntryFair(q.entries[id]))
    && (forall a, b :: a in q.entries && b in q.entries && a < b ==> q.entries[a].age >= q.entries[b].age)
  }

  predicate EntryFair(e: Entry) {
    e.priority == if e.age >= STARVATION then 0 else Priority(e.request)
  }

  lemma MovesKeepFair(q: Queue, s: Step, q': Queue)
    requires Fair(q) && Moves(q, s, q')
    ensures Fair(q')
  {
  }

  lemma {:induction false} RunKeepsFair(q: Queue, trace: seq<Step>, states: seq<Queue>, i: nat)
    requires Fair(q) && Run(q, trace, states) && i <= |trace|
    ensures Fair(states[i])
    decreases i
  {
    hide Fair, Moves;
    if i > 0 {
      RunKeepsFair(q, trace, states, i - 1);
      MovesKeepFair(states[i - 1], trace[i - 1], states[i]);
    }
  }

  /** This pop finds the entry waiting through its eighth turn or longer. */
  predicate Starved(e: Entry) {
    e.age + 1 >= STARVATION
  }

  /** The rank a request asks for: its source, or that of a transport operation. */
  predicate Outranks(a: Request, b: Request) {
    if a.transportOp && b.transportOp then false
    else if a.transportOp then 0x80 < b.source
    else if b.transportOp then a.source < 0x80
    else a.source < b.source
  }

  /**
    Which of two waiting requests leaves first, from the requests, their ages and their order of
    arrival alone: a starved one before any other but a source 0 that came earlier, then the lower
    source, a transport operation counting as source 0x80, then first come first served.
    */
  ghost predicate LeavesFirst(entries: map<nat, Entry>, a: nat, b: nat)
    requires a in entries && b in entries
  {
    var x, y := entries[a], entries[b];
    var top := Request(0, false, 0);
    if Starved(x) && Starved(y) then a < b
    else if Starved(x) then Outranks(top, y.request) || a < b
    else if Starved(y) then !Outranks(top, x.request) && a < b
    else Outranks(x.request, y.request) || (!Outranks(y.request, x.request) && a < b)
  }

  /** In every run each pop serves the one request that leaves before all others waiting. */
  lemma ServesFirst(q: Queue, trace: seq<Step>, states: seq<Queue>, i: nat, id: nat)
    requires Fair(q) && Run(q, trace, states) && i < |trace| && trace[i] == Popped(id)
    ensures id in states[i].entries
    ensures forall k :: k in states[i].entries && k != id ==> LeavesFirst(states[i].entries, id, k)
  {
    hide Fair;
    RunKeepsFair(q, trace, states, i);
    var entries := states[i].entries;
    assert Moves(states[i], trace[i], states[i + 1]);
    assert id in Aged(entries);
    forall k | k in entries && k != id
      ensures LeavesFirst(entries, id, k)
    {
      assert k in Aged(entries) && Precedes(Aged(entries), id, k);
      FairEntries(states[i], id, k);
    }
  }

  lemma FairEntries(q: Queue, a: nat, b: nat)
    requires Fair(q) && a in q.entries && b in q.entries
    ensures EntryFair(q.entries[a]) && EntryFair(q.entries[b])
  {
  }

  /** Which request leaves is settled: of two, exactly one leaves first. */
  lemma OneLeavesFirst(entries: map<nat, Entry>, a: nat, b: nat)
    requires a in entries && b in entries && a != b
    ensures LeavesFirst(entries, a, b) <==> !LeavesFirst(entries, b, a)
  {
  }

  /** Requests of one source, or two transport operations, leave in the order in which they were pushed. */
  lemma SameSourceInOrder(q: Queue, trace: seq<Step>, states: seq<Queue>, i: nat, a: nat, b: nat)
    requires Fair(q) && Run(q, trace, states) && i < |trace|
    requires a in states[i].entries && b in states[i].entries && a < b
    requires var x, y := states[i].entries[a].request, states[i].entries[b].request;
      x.transportOp == y.transportOp && (x.transportOp || x.source == y.source)
    ensures trace[i] != Popped(b)
  {
    hide Fair;
    RunKeepsFair(q, trace, states, i);
    if trace[i] == Popped(b) {
      ServesFirst(q, trace, states, i, b);
      AgesInOrder(states[i], a, b);
    }
  }

  lemma AgesInOrder(q: Queue, a: nat, b: nat)
    requires Fair(q) && a in q.entries && b in q.entries && a < b
    ensures q.entries[a].age >= q.entries[b].age
  {
  }

  /** A lower source is served before a higher one that is not starved, whichever came first. */
  lemma LowerSourceFirst(q: Queue, trace: seq<Step>, states: seq<Queue>, i: nat, a: nat, b: nat)
    requires Fair(q) && Run(q, trace, states) && i < |trace|
    requires a in states[i].entries && b in states[i].entries && !Starved(states[i].entries[b])
    requires Outranks(states[i].entries[a].request, states[i].entries[b].request)
    ensures trace[i] != Popped(b)
  {
    if trace[i] == Popped(b) { ServesFirst(q, trace, states, i, b); }
  }

  /** Nothing enters or leaves except by its own push and its own pop. */
  lemma RequestsConserved(q: Queue, s: Step, q': Queue, id: nat)
    requires Fair(q) && Moves(q, s, q')
    ensures match s
      case Pushed(r) =>
        q.next !in q.entries && q'.entries.Keys == q.entries.Keys + {q.next} && q'.entries[q.next].request == r &&
        (id in q.entries ==> q'.entries[id] == q.entries[id])
      case Popped(k) =>
        k in q.entries && q'.entries.Keys == q.entries.Keys - {k} &&
        (id in q'.entries ==> q'.entries[id].request == q.entries[id].request)
  {
  }

  // ---- No starvation ----

  ghost function OlderThan(q: Queue, x: nat): set<nat> {
    set id | id in q.entries && id < x
  }

  /** How many more pops x can be made to wait for. */
  ghost function Patience(q: Queue, x: nat): nat
    requires x in q.entries
  {
    (if q.entries[x].age < STARVATION then STARVATION - 1 - q.entries[x].age else 0) + |OlderThan(q, x)| + 1
  }

  lemma PushKeepsPatience(q: Queue, r: Request, x: nat)
    requires Fair(q) && x in q.entries
    ensures x in Push(q, r).entries && Patience(Push(q, r), x) == Patience(q, x)
  {
    assert OlderThan(Push(q, r), x) == OlderThan(q, x);
  }

  /** Every pop serves x or uses up some of its patience. */
  lemma PopUsesPatience(q: Queue, id: nat, q': Queue, x: nat)
    requires Fair(q) && Pops(q, id, q') && x in q.entries && id != x
    ensures x in q'.entries && Patience(q', x) < Patience(q, x)
  {
    var aged := Aged(q.entries);
    assert x in aged && Precedes(aged, id, x);
    assert OlderThan(q', x) == OlderThan(q, x) - {id};
    assert EntryFair(q.entries[x]);
    if q.entries[x].age + 1 >= STARVATION {
      assert id in OlderThan(q, x);
    }
  }

  ghost function PopCount(trace: seq<Step>): nat {
    if trace == [] then 0 else PopCount(trace[..|trace| - 1]) + if trace[|trace| - 1].Popped? then 1 else 0
  }

  lemma {:induction false} WaitsAtMostItsPatience(q: Queue, trace: seq<Step>, states: seq<Queue>, x: nat)
    requires Fair(q) && Run(q, trace, states) && x in q.entries
    requires forall i :: 0 <= i < |trace| ==> trace[i] != Popped(x)
    ensures x in states[|trace|].entries && Patience(states[|trace|], x) + PopCount(trace) <= Patience(q, x)
    decreases trace
  {
    hide Patience, Fair;
    if trace != [] {
      var n := |trace| - 1;
      assert Run(q, trace[..n], states[..n + 1]) by { RunPrefix(q, trace, states); }
      WaitsAtMostItsPatience(q, trace[..n], states[..n + 1], x);
      RunKeepsFair(q, trace, states, n);
      assert Moves(states[n], trace[n], states[n + 1]);
      match trace[n]
      case Pushed(r) => PushKeepsPatience(states[n], r, x);
      case Popped(id) => PopUsesPatience(states[n], id, states[n + 1], x);
    }
  }

  lemma RunPrefix(q: Queue, trace: seq<Step>, states: seq<Queue>)
    requires Run(q, trace, states) && trace != []
    ensures Run(q, trace[..|trace| - 1], states[..|trace|])
  {
    hide Moves;
  }

  /** An entry pushed behind n others is served within 8 + n pops, whatever is pushed after it. */
  lemma ServedInTime(q: Queue, r: Request, trace: seq<Step>, states: seq<Queue>)
    requires Fair(q) && Run(Push(q, r), trace, states) && PopCount(trace) >= STARVATION + |q.entries|
    ensures exists i :: 0 <= i < |trace| && trace[i] == Popped(q.next)
  {
    hide Run;
    var p, x := Push(q, r), q.next;
    MovesKeepFair(q, Pushed(r), p);
    assert OlderThan(p, x) == q.entries.Keys;
    assert Patience(p, x) == STARVATION + |q.entries|;
    if forall i :: 0 <= i < |trace| ==> trace[i] != Popped(x) {
      WaitsAtMostItsPatience(p, trace, states, x);
    }
  }
}
