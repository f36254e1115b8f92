/**
  The worker-to-host half of the shared-memory link: two lanes that may overtake each other, one
  ordinal per record, and the ledger by which the host proves that nothing was lost.
  */
module LinkLedger {
  import opened Octets

  /**
    A lane as the bounded FIFO it refines: everything ever published, how much the consumer has
    released, and the consumer index the producer last loaded.
    */
  datatype Fifo<T> = Fifo(sent: seq<T>, read: nat, seen: nat) {
    ghost predicate Valid(bound: int) {
      && seen <= read <= |sent|
      && |sent| - seen <= bound
    }

    predicate HasRoom(capacity: nat, reserve: nat) {
      |sent| - seen + reserve < capacity
    }

    predicate Empty() {
      read >= |sent|
    }

    /** The producer loads the consumer index at some moment; it never sees it move back. */
    function Load(index: nat): Fifo<T> {
      if seen <= index <= read then this.(seen := index) else this
    }

    function Send(x: T): Fifo<T> {
      this.(sent := sent + [x])
    }

    function Release(): Fifo<T> {
      this.(read := read + 1)
    }
  }

  datatype PlanRef = PlanRef(subscriber: nat, target: byte, epoch: nat, plan: nat, expiry: nat)

  datatype Command = Command(ref: PlanRef, transaction: nat, token: nat, ownerExpiry: nat, requestDeadline: nat) {
    predicate Live(now: nat) {
      now < ownerExpiry && now < ref.expiry && now < requestDeadline
    }
  }

  datatype ControlRecord =
    | Acknowledge(ordinal: nat, ref: PlanRef)
    | Gap(ordinal: nat)

  datatype DataRecord =
    | Raw(ordinal: nat, octet: byte, selection: Option<Command>)
    | Completion(ordinal: nat, command: Command)

  /** Where the record that carries an ordinal was written. */
  datatype Place = InData(index: nat) | InControl(index: nat)

  /** Both worker lanes; home[o - 1] says where ordinal o went. The next ordinal is |home| + 1. */
  datatype Up = Up(control: Fifo<ControlRecord>, data: Fifo<DataRecord>, home: seq<Place>)

  // ---- Ordinals ----

  /** Every ordinal allocated so far is carried by exactly one record, and each lane is in order. */
  ghost predicate Ordinals(up: Up) {
    && (forall i :: 0 <= i < |up.data.sent| ==>
          1 <= up.data.sent[i].ordinal <= |up.home| && up.home[up.data.sent[i].ordinal - 1] == InData(i))
    && (forall j :: 0 <= j < |up.control.sent| ==>
          1 <= up.control.sent[j].ordinal <= |up.home| && up.home[up.control.sent[j].ordinal - 1] == InControl(j))
    && (forall o :: 0 <= o < |up.home| ==> Housed(up, o))
    && (forall i, k :: 0 <= i < k < |up.data.sent| ==> up.data.sent[i].ordinal < up.data.sent[k].ordinal)
    && (forall i, k :: 0 <= i < k < |up.control.sent| ==> up.control.sent[i].ordinal < up.control.sent[k].ordinal)
  }

  ghost predicate Housed(up: Up, o: nat)
    requires o < |up.home|
  {
    match up.home[o]
    case InData(i) => i < |up.data.sent| && up.data.sent[i].ordinal == o + 1
    case InControl(j) => j < |up.control.sent| && up.control.sent[j].ordinal == o + 1
  }

  function NextOrdinal(up: Up): nat {
    |up.home| + 1
  }

  function PostData(up: Up, record: DataRecord): Up {
    up.(data := up.data.Send(record), home := up.home + [InData(|up.data.sent|)])
  }

  function PostControl(up: Up, record: ControlRecord): Up {
    up.(control := up.control.Send(record), home := up.home + [InControl(|up.control.sent|)])
  }

  lemma PostDataKeepsOrdinals(up: Up, record: DataRecord)
    requires Ordinals(up) && record.ordinal == NextOrdinal(up)
    ensures Ordinals(PostData(up, record))
  {
    var later := PostData(up, record);
    assert forall i :: 0 <= i < |up.data.sent| ==> later.data.sent[i] == up.data.sent[i];
    assert forall o :: 0 <= o < |up.home| ==> later.home[o] == up.home[o];
    forall o | 0 <= o < |later.home|
      ensures Housed(later, o)
    {
      if o < |up.home| {
        assert Housed(up, o);
      }
    }
    forall i | 0 <= i < |later.data.sent|
      ensures 1 <= later.data.sent[i].ordinal <= |later.home| && later.home[later.data.sent[i].ordinal - 1] == InData(i)
    {
    }
  }

  lemma PostControlKeepsOrdinals(up: Up, record: ControlRecord)
    requires Ordinals(up) && record.ordinal == NextOrdinal(up)
    ensures Ordinals(PostControl(up, record))
  {
    var later := PostControl(up, record);
    assert forall i :: 0 <= i < |up.control.sent| ==> later.control.sent[i] == up.control.sent[i];
    assert forall o :: 0 <= o < |up.home| ==> later.home[o] == up.home[o];
    forall o | 0 <= o < |later.home|
      ensures Housed(later, o)
    {
      if o < |up.home| {
        assert Housed(up, o);
      }
    }
    forall i | 0 <= i < |later.control.sent|
      ensures 1 <= later.control.sent[i].ordinal <= |later.home| && later.home[later.control.sent[i].ordinal - 1] == InControl(i)
    {
    }
  }

  // ---- The ledger: aa24AccountSequence ----

  function IndexOf(s: seq<nat>, x: nat): (i: nat)
    ensures i <= |s|
    ensures i < |s| ==> s[i] == x
    ensures i == |s| <==> x !in s
  {
    if s == [] then 0 else if s[0] == x then 0 else 1 + IndexOf(s[1..], x)
  }

  function Without(s: seq<nat>, i: nat): seq<nat>
    requires i < |s|
  {
    s[..i] + s[i + 1..]
  }

  datatype Ledger = Ledger(next: nat, explained: seq<nat>)

  /** Data caught up: early control ordinals that follow directly are no longer early. */
  function Advance(l: Ledger): Ledger
    decreases |l.explained|
  {
    var i := IndexOf(l.explained, l.next);
    if i == |l.explained| then l else Advance(Ledger(l.next + 1, Without(l.explained, i)))
  }

  function Account(l: Ledger, ordinal: nat, control: bool, capacity: nat): (bool, Ledger) {
    if ordinal < l.next then (false, l)
    else if ordinal > l.next then
      if !control || |l.explained| == capacity || ordinal in l.explained then (false, l)
      else (true, l.(explained := l.explained + [ordinal]))
    else (true, Advance(l.(next := ordinal + 1)))
  }

  ghost predicate Distinct(s: seq<nat>) {
    forall i, k :: 0 <= i < k < |s| ==> s[i] != s[k]
  }

  lemma WithoutDistinct(s: seq<nat>, i: nat)
    requires Distinct(s) && i < |s|
    ensures Distinct(Without(s, i))
    ensures forall x :: x in Without(s, i) <==> x in s && x != s[i]
  {
    var w := Without(s, i);
    forall x
      ensures x in w <==> x in s && x != s[i]
    {
      if x in s && x != s[i] {
        var k :| 0 <= k < |s| && s[k] == x;
        assert w[if k < i then k else k - 1] == x;
      }
    }
  }

  /** r is l with its boundary moved over exactly the explained ordinals that it met. */
  ghost predicate Meets(l: Ledger, r: Ledger) {
    && l.next <= r.next && |r.explained| <= |l.explained|
    && Distinct(r.explained) && (forall e :: e in r.explained ==> e > r.next)
    && (forall x :: x in r.explained ==> x in l.explained)
    && (forall x :: x in l.explained ==> x < r.next || x in r.explained)
    && (forall x :: l.next <= x < r.next ==> x in l.explained)
  }

  lemma MeetsOneMore(l: Ledger, i: nat, r: Ledger)
    requires Distinct(l.explained) && i < |l.explained| && l.explained[i] == l.next
    requires Meets(Ledger(l.next + 1, Without(l.explained, i)), r)
    ensures Meets(l, r)
  {
    WithoutDistinct(l.explained, i);
    forall x | l.next <= x < r.next
      ensures x in l.explained
    {
      assert x > l.next ==> x in Without(l.explained, i);
    }
  }

  lemma RemovedAbove(s: seq<nat>, i: nat)
    requires Distinct(s) && i < |s| && forall e :: e in s ==> e >= s[i]
    ensures Distinct(Without(s, i)) && |Without(s, i)| == |s| - 1
    ensures forall e :: e in Without(s, i) ==> e >= s[i] + 1
  {
    hide Distinct;
    WithoutDistinct(s, i);
  }

  lemma {:induction false} AdvanceMeets(l: Ledger)
    requires Distinct(l.explained) && forall e :: e in l.explained ==> e >= l.next
    ensures Meets(l, Advance(l))
    decreases |l.explained|
  {
    hide Meets, Distinct, Without;
    var i := IndexOf(l.explained, l.next);
    if i < |l.explained| {
      RemovedAbove(l.explained, i);
      AdvanceMeets(Ledger(l.next + 1, Without(l.explained, i)));
      MeetsOneMore(l, i, Advance(l));
    } else {
      MeetsItself(l);
    }
  }

  lemma MeetsItself(l: Ledger)
    requires Distinct(l.explained) && forall e :: e in l.explained ==> e > l.next
    ensures Meets(l, l)
  {
  }

  // ---- What the ledger knows about the lanes ----

  ghost predicate Consumed(up: Up, o: nat)
    requires 1 <= o <= |up.home|
  {
    match up.home[o - 1]
    case InData(i) => i < up.data.read
    case InControl(j) => j < up.control.read
  }

  /**
    All ordinals below the boundary have been read, none at it, and beyond it exactly the explained
    ones, which are all control records.
    */
  ghost predicate Balanced(up: Up, l: Ledger, capacity: nat) {
    && 1 <= l.next <= |up.home| + 1
    && Distinct(l.explained) && |l.explained| <= capacity
    && (forall o {:trigger Consumed(up, o)} :: 1 <= o < l.next ==> Consumed(up, o))
    && (forall o {:trigger Consumed(up, o)} :: l.next <= o <= |up.home| ==> (Consumed(up, o) <==> o in l.explained))
    && (forall e :: e in l.explained ==> l.next < e <= |up.home|)
    && (forall i :: 0 <= i < up.data.read <= |up.data.sent| ==> up.data.sent[i].ordinal < l.next)
  }

  lemma PostKeepsBalance(up: Up, after: Up, l: Ledger, capacity: nat)
    requires up.data.read <= |up.data.sent| && up.control.read <= |up.control.sent|
    requires Balanced(up, l, capacity)
    requires (exists r: DataRecord :: after == PostData(up, r)) || (exists r: ControlRecord :: after == PostControl(up, r))
    ensures Balanced(after, l, capacity)
  {
    assert forall k :: 0 <= k < |up.home| ==> after.home[k] == up.home[k];
    forall o | 1 <= o <= |after.home|
      ensures Consumed(after, o) <==> o <= |up.home| && Consumed(up, o)
    {
    }
  }

  /** While any ordinal is explained early, the boundary is the oldest unread data record. */
  lemma BoundaryIsData(up: Up, l: Ledger, capacity: nat)
    requires up.data.read <= |up.data.sent| && up.control.read <= |up.control.sent|
    requires Ordinals(up) && Balanced(up, l, capacity)
    requires l.explained != [] || (up.control.Empty() && !up.data.Empty())
    ensures up.data.read < |up.data.sent| && up.data.sent[up.data.read].ordinal == l.next
  {
    hide Ordinals, Balanced;
    BoundaryInData(up, l, capacity);
    OldestUnread(up, l.next);
    UnreadNotConsumed(up);
    BelowIsConsumed(up, l, capacity);
  }

  /** The record at the boundary is an unread data record. */
  lemma BoundaryInData(up: Up, l: Ledger, capacity: nat)
    requires up.data.read <= |up.data.sent| && up.control.read <= |up.control.sent|
    requires Ordinals(up) && Balanced(up, l, capacity)
    requires l.explained != [] || (up.control.Empty() && !up.data.Empty())
    ensures 1 <= l.next <= |up.home| && up.home[l.next - 1].InData? && !Consumed(up, l.next)
  {
    var n := l.next;
    if l.explained != [] {
      var e := l.explained[0];
      assert e in l.explained;
      assert Consumed(up, e) && Housed(up, e - 1);
      assert !Consumed(up, n) && Housed(up, n - 1);
    } else {
      var d := up.data.sent[up.data.read].ordinal;
      assert !Consumed(up, d);
      assert !Consumed(up, n) && Housed(up, n - 1);
    }
  }

  lemma UnreadNotConsumed(up: Up)
    requires Ordinals(up) && up.data.read < |up.data.sent|
    ensures 1 <= up.data.sent[up.data.read].ordinal <= |up.home| && !Consumed(up, up.data.sent[up.data.read].ordinal)
  {
  }

  /** An unread data ordinal is not before the oldest unread one. */
  lemma OldestUnread(up: Up, n: nat)
    requires Ordinals(up) && 1 <= n <= |up.home| && up.home[n - 1].InData? && !Consumed(up, n)
    ensures up.data.read < |up.data.sent| && up.data.sent[up.data.read].ordinal <= n
  {
    assert Housed(up, n - 1);
  }

  lemma BelowIsConsumed(up: Up, l: Ledger, capacity: nat)
    requires Balanced(up, l, capacity) && up.data.read < |up.data.sent| && Ordinals(up)
    requires !Consumed(up, up.data.sent[up.data.read].ordinal)
    ensures up.data.sent[up.data.read].ordinal >= l.next
  {
  }

  /** Releasing the slot that holds ordinal n consumes n and nothing else. */
  lemma ReleaseConsumes(up: Up, after: Up, n: nat, control: bool)
    requires Ordinals(up) && 1 <= n <= |up.home|
    requires after == if control then up.(control := up.control.Release()) else up.(data := up.data.Release())
    requires up.home[n - 1] == if control then InControl(up.control.read) else InData(up.data.read)
    ensures forall o {:trigger Consumed(after, o)} :: 1 <= o <= |up.home| ==> (Consumed(after, o) <==> Consumed(up, o) || o == n)
  {
    forall o | 1 <= o <= |up.home|
      ensures Consumed(after, o) <==> Consumed(up, o) || o == n
    {
      assert Housed(up, o - 1) && Housed(up, n - 1);
    }
  }

  /** Reading the boundary record, from either lane, keeps the books balanced. */
  lemma AccountBoundary(up: Up, after: Up, l: Ledger, control: bool, capacity: nat)
    requires up.data.read <= |up.data.sent| && up.control.read <= |up.control.sent|
    requires Ordinals(up) && Balanced(up, l, capacity)
    requires l.next <= |up.home|
    requires after == if control then up.(control := up.control.Release()) else up.(data := up.data.Release())
    requires up.home[l.next - 1] == if control then InControl(up.control.read) else InData(up.data.read)
    ensures Account(l, l.next, control, capacity).0
    ensures Balanced(after, Account(l, l.next, control, capacity).1, capacity)
  {
    hide Advance, Meets;
    assert !Consumed(up, l.next) && Housed(up, l.next - 1);
    ReleaseConsumes(up, after, l.next, control);
    AdvanceMeets(l.(next := l.next + 1));
    BalancedBeyond(up, after, l, Advance(l.(next := l.next + 1)), capacity);
  }

  /** The books after the boundary record was read and the boundary moved to r. */
  lemma BalancedBeyond(up: Up, after: Up, l: Ledger, r: Ledger, capacity: nat)
    requires Balanced(up, l, capacity) && l.next <= |up.home| == |after.home|
    requires Meets(l.(next := l.next + 1), r)
    requires forall o {:trigger Consumed(after, o)} :: 1 <= o <= |up.home| ==> (Consumed(after, o) <==> Consumed(up, o) || o == l.next)
    requires forall i :: 0 <= i < after.data.read <= |after.data.sent| ==> after.data.sent[i].ordinal <= l.next
    ensures Balanced(after, r, capacity)
  {
    assert r.next <= |up.home| + 1 by {
      if r.next > l.next + 1 {
        assert r.next - 1 in l.explained;
      }
    }
  }

  /** A control record ahead of the boundary is explained while the list has room. */
  lemma AccountEarly(up: Up, after: Up, l: Ledger, capacity: nat)
    requires up.data.read <= |up.data.sent| && up.control.read < |up.control.sent|
    requires Ordinals(up) && Balanced(up, l, capacity)
    requires up.control.sent[up.control.read].ordinal > l.next
    requires |l.explained| < capacity
    requires after == up.(control := up.control.Release())
    ensures var o := up.control.sent[up.control.read].ordinal;
            Account(l, o, true, capacity).0 && Balanced(after, Account(l, o, true, capacity).1, capacity)
  {
    var e := up.control.sent[up.control.read].ordinal;
    assert !Consumed(up, e);
    ReleaseConsumes(up, after, e, true);
  }

  /** Whatever control record comes next is at the boundary or ahead of it. */
  lemma NextControlNotBehind(up: Up, l: Ledger, capacity: nat)
    requires up.control.read < |up.control.sent|
    requires Ordinals(up) && Balanced(up, l, capacity)
    ensures up.control.sent[up.control.read].ordinal >= l.next
  {
    var o := up.control.sent[up.control.read].ordinal;
    assert !Consumed(up, o);
  }
}
