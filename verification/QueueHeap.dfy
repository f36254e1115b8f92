/**
  The queue as it is kept: a binary heap of pointers to items, each item holding its own position so
  that promotions can repair the heap in place.
  */
module QueueHeap {
  import opened Octets
  import opened QueueSpec

  datatype Cell = Cell(request: Request, priority: byte, age: nat, index: int)

  /** a sorts no later than b: Less, made reflexive. */
  predicate Le(cells: map<nat, Cell>, a: nat, b: nat)
    requires a in cells && b in cells
  {
    cells[a].priority < cells[b].priority || (cells[a].priority == cells[b].priority && a <= b)
  }

  /** Items and positions agree in both directions, so the items are distinct and complete. */
  ghost predicate Agrees(items: seq<nat>, cells: map<nat, Cell>) {
    && (forall k :: 0 <= k < |items| ==> items[k] in cells && cells[items[k]].index == k)
    && (forall id :: id in cells ==> 0 <= cells[id].index < |items| && items[cells[id].index] == id)
  }

  predicate Child(p: int, c: int) {
    c == 2 * p + 1 || c == 2 * p + 2
  }

  ghost predicate Pair(items: seq<nat>, cells: map<nat, Cell>, p: int, c: int)
    requires 0 <= p < |items| && 0 <= c < |items|
  {
    items[p] in cells && items[c] in cells && Le(cells, items[p], items[c])
  }

  /** Ordered everywhere except around position h, across which it is still ordered. */
  ghost predicate HeapAround(items: seq<nat>, cells: map<nat, Cell>, n: int, h: int) {
    && 0 <= n <= |items|
    && (forall p, c :: 0 <= p < n && 0 <= c < n && Child(p, c) && p != h && c != h ==> Pair(items, cells, p, c))
    && (forall p, c :: 0 <= p < n && 0 <= c < n && 0 <= h < n && Child(p, h) && Child(h, c) ==> Pair(items, cells, p, c))
  }

  ghost predicate Heap(items: seq<nat>, cells: map<nat, Cell>, n: int) {
    && 0 <= n <= |items|
    && (forall p, c :: 0 <= p < n && 0 <= c < n && Child(p, c) ==> Pair(items, cells, p, c))
  }

  ghost predicate AboveChildren(items: seq<nat>, cells: map<nat, Cell>, n: int, h: int) {
    0 <= h < n <= |items| && forall c :: 0 <= c < n && Child(h, c) ==> Pair(items, cells, h, c)
  }

  ghost predicate BelowParent(items: seq<nat>, cells: map<nat, Cell>, n: int, h: int) {
    0 <= h < n <= |items| && forall p :: 0 <= p < n && Child(p, h) ==> Pair(items, cells, p, h)
  }

  lemma Closed(items: seq<nat>, cells: map<nat, Cell>, n: int, h: int)
    requires HeapAround(items, cells, n, h) && AboveChildren(items, cells, n, h) && BelowParent(items, cells, n, h)
    ensures Heap(items, cells, n)
  {
  }

  // ---- Swapping ----

  function SwapItems(items: seq<nat>, i: int, j: int): seq<nat>
    requires 0 <= i < |items| && 0 <= j < |items|
  {
    items[i := items[j]][j := items[i]]
  }

  function SwapCells(items: seq<nat>, cells: map<nat, Cell>, i: int, j: int): map<nat, Cell>
    requires 0 <= i < |items| && 0 <= j < |items| && items[i] in cells && items[j] in cells
  {
    var moved := cells[items[j] := cells[items[j]].(index := i)];
    moved[items[i] := moved[items[i]].(index := j)]
  }

  /** Everything but positions. */
  function Entries(cells: map<nat, Cell>): map<nat, Entry> {
    map id | id in cells :: Entry(cells[id].request, cells[id].priority, cells[id].age)
  }

  lemma SwapAgrees(items: seq<nat>, cells: map<nat, Cell>, i: int, j: int)
    requires Agrees(items, cells) && 0 <= i < |items| && 0 <= j < |items|
    ensures Agrees(SwapItems(items, i, j), SwapCells(items, cells, i, j))
    ensures Entries(SwapCells(items, cells, i, j)) == Entries(cells)
  {
  }

  lemma SameOrder(cells: map<nat, Cell>, cells': map<nat, Cell>, a: nat, b: nat)
    requires Entries(cells) == Entries(cells') && a in cells && b in cells
    ensures a in cells' && b in cells' && Le(cells, a, b) == Le(cells', a, b)
  {
    assert a in Entries(cells) && b in Entries(cells);
    assert Entries(cells')[a] == Entries(cells)[a] && Entries(cells')[b] == Entries(cells)[b];
  }

  /** Positions play no part in the order. */
  lemma SameHeap(items: seq<nat>, cells: map<nat, Cell>, cells': map<nat, Cell>, n: int, h: int)
    requires Entries(cells) == Entries(cells')
    ensures HeapAround(items, cells, n, h) ==> HeapAround(items, cells', n, h)
    ensures Heap(items, cells, n) ==> Heap(items, cells', n)
    ensures AboveChildren(items, cells, n, h) ==> AboveChildren(items, cells', n, h)
    ensures BelowParent(items, cells, n, h) ==> BelowParent(items, cells', n, h)
  {
    hide Le, Entries;
    forall p, c | 0 <= p < |items| && 0 <= c < |items| && Pair(items, cells, p, c)
      ensures Pair(items, cells', p, c)
    {
      SameOrder(cells, cells', items[p], items[c]);
    }
  }

  /** The hole moves down to the smaller child. */
  lemma HoleDown(items: seq<nat>, cells: map<nat, Cell>, n: int, h: int, c: int)
    requires HeapAround(items, cells, n, h) && 0 <= h < n && 0 <= c < n && Child(h, c) && Pair(items, cells, c, h)
    requires forall s :: 0 <= s < n && Child(h, s) ==> Pair(items, cells, c, s)
    ensures HeapAround(SwapItems(items, h, c), cells, n, c) && BelowParent(SwapItems(items, h, c), cells, n, c)
  {
    var t := SwapItems(items, h, c);
    forall p, k | 0 <= p < n && 0 <= k < n && Child(p, k) && p != c && k != c
      ensures Pair(t, cells, p, k)
    {
      assert p == h || k == h || Pair(items, cells, p, k);
      if k == h { assert Child(p, h) && Child(h, c); }
    }
    forall p, k | 0 <= p < n && 0 <= k < n && Child(p, c) && Child(c, k)
      ensures Pair(t, cells, p, k)
    {
      assert p == h && Pair(items, cells, c, k);
    }
  }

  /** The hole moves up to its parent. */
  lemma HoleUp(items: seq<nat>, cells: map<nat, Cell>, n: int, h: int, p: int)
    requires HeapAround(items, cells, n, h) && AboveChildren(items, cells, n, h)
    requires 0 <= p < n && Child(p, h) && Pair(items, cells, h, p)
    ensures HeapAround(SwapItems(items, p, h), cells, n, p) && AboveChildren(SwapItems(items, p, h), cells, n, p)
  {
    var t := SwapItems(items, p, h);
    forall a, b | 0 <= a < n && 0 <= b < n && Child(a, b) && a != p && b != p
      ensures Pair(t, cells, a, b)
    {
      if a == h { assert Child(p, h) && Child(h, b); } else { assert Pair(items, cells, a, b); }
    }
    forall a, b | 0 <= a < n && 0 <= b < n && Child(a, p) && Child(p, b)
      ensures Pair(t, cells, a, b)
    {
      assert Pair(items, cells, a, p);
      if b != h { assert Pair(items, cells, p, b); }
    }
    forall b | 0 <= b < n && Child(p, b)
      ensures Pair(t, cells, p, b)
    {
      if b != h { assert Pair(items, cells, p, b); }
    }
  }

  predicate Less(cells: map<nat, Cell>, a: nat, b: nat)
    requires a in cells && b in cells
  {
    if cells[a].priority == cells[b].priority then a < b else cells[a].priority < cells[b].priority
  }

  /** The root of a heap comes first. */
  lemma {:induction false} RootFirst(items: seq<nat>, cells: map<nat, Cell>, n: int, k: int)
    requires Heap(items, cells, n) && 0 <= k < n && items[0] in cells
    ensures items[k] in cells && Le(cells, items[0], items[k])
    decreases k
  {
    if k > 0 {
      var p := (k - 1) / 2;
      RootFirst(items, cells, n, p);
      assert Child(p, k) && Pair(items, cells, p, k);
    }
  }

  // ---- Ageing and promotion ----

  /** The items in ids brought to the highest priority. */
  ghost function Lowered(entries: map<nat, Entry>, ids: set<nat>): map<nat, Entry> {
    map id | id in entries :: if id in ids then entries[id].(priority := 0) else entries[id]
  }

  ghost function Older1(entries: map<nat, Entry>): map<nat, Entry> {
    map id | id in entries :: entries[id].(age := entries[id].age + 1)
  }

  ghost predicate Starved(e: Entry) {
    e.age >= STARVATION && e.priority > 0
  }

  ghost function StarvedOf(entries: map<nat, Entry>): set<nat> {
    set id | id in entries && Starved(entries[id])
  }

  /** Ageing everyone, then promoting the starved, is one step of ageing. */
  lemma AgedInTwoPhases(entries: map<nat, Entry>)
    ensures Lowered(Older1(entries), StarvedOf(Older1(entries))) == Aged(entries)
  {
  }

  ghost function Members(ids: seq<nat>): set<nat> {
    set id | id in ids
  }

  function Promote(cells: map<nat, Cell>, id: nat): map<nat, Cell>
    requires id in cells
  {
    cells[id := cells[id].(priority := 0)]
  }

  lemma PromoteKeeps(items: seq<nat>, cells: map<nat, Cell>, id: nat, base: map<nat, Entry>, ids: set<nat>)
    requires Agrees(items, cells) && id in cells && Heap(items, cells, |items|) && Entries(cells) == Lowered(base, ids)
    ensures Agrees(items, Promote(cells, id)) && HeapAround(items, Promote(cells, id), |items|, cells[id].index)
    ensures Entries(Promote(cells, id)) == Lowered(base, ids + {id})
  {
    hide HeapAround, Heap;
    PromoteAround(items, cells, id);
    PromoteLowers(cells, id, base, ids);
  }

  lemma PromoteLowers(cells: map<nat, Cell>, id: nat, base: map<nat, Entry>, ids: set<nat>)
    requires id in cells && Entries(cells) == Lowered(base, ids)
    ensures Entries(Promote(cells, id)) == Lowered(base, ids + {id})
  {
    var up := Promote(cells, id);
    assert Entries(cells).Keys == base.Keys;
    forall k | k in Entries(up)
      ensures k in base && Entries(up)[k] == Lowered(base, ids + {id})[k]
    {
      assert k in Entries(cells) && Entries(cells)[k] == Lowered(base, ids)[k];
    }
  }

  lemma PromoteAround(items: seq<nat>, cells: map<nat, Cell>, id: nat)
    requires Agrees(items, cells) && id in cells && Heap(items, cells, |items|)
    ensures HeapAround(items, Promote(cells, id), |items|, cells[id].index)
  {
    var h, up := cells[id].index, Promote(cells, id);
    forall p, c | 0 <= p < |items| && 0 <= c < |items| && Child(p, c) && p != h && c != h
      ensures Pair(items, up, p, c)
    {
      assert Pair(items, cells, p, c);
    }
    forall p, c | 0 <= p < |items| && 0 <= c < |items| && Child(p, h) && Child(h, c)
      ensures Pair(items, up, p, c)
    {
      assert Pair(items, cells, p, h) && Pair(items, cells, h, c);
    }
  }

  class PriorityQueue {
    var items: seq<nat>
    var cells: map<nat, Cell>
    var next: nat

    ghost predicate Valid()
      reads this
    {
      Agrees(items, cells) && Heap(items, cells, |items|) && forall id :: id in cells ==> id < next
    }

    ghost function Value(): Queue
      reads this
    {
      Queue(Entries(cells), next)
    }

    constructor ()
      ensures Valid() && Value() == Queue(map[], 0)
    {
      items, cells, next := [], map[], 0;
    }

    method Swap(i: int, j: int)
      requires Agrees(items, cells) && 0 <= i < |items| && 0 <= j < |items|
      modifies this`items, this`cells
      ensures items == SwapItems(old(items), i, j) && Agrees(items, cells) && Entries(cells) == Entries(old(cells))
    {
      SwapAgrees(items, cells, i, j);
      cells := SwapCells(items, cells, i, j);
      items := SwapItems(items, i, j);
    }

    /** Sifts position start down within the first n items; says whether it moved. */
    method Down(start: int, n: int) returns (moved: bool)
      requires Agrees(items, cells) && 0 <= start < n <= |items| && HeapAround(items, cells, n, start)
      modifies this`items, this`cells
      ensures Agrees(items, cells) && Entries(cells) == Entries(old(cells)) && |items| == |old(items)|
      ensures items[n..] == old(items)[n..]
      ensures moved ==> Heap(items, cells, n)
      ensures !moved ==> items == old(items) && HeapAround(items, cells, n, start) && AboveChildren(items, cells, n, start)
    {
      var i := start;
      while true
        invariant start <= i < n <= |items| == |old(items)| && Agrees(items, cells) && Entries(cells) == Entries(old(cells))
        invariant HeapAround(items, cells, n, i) && items[n..] == old(items)[n..]
        invariant if i == start then items == old(items) else BelowParent(items, cells, n, i)
        decreases n - i
      {
        var j := 2 * i + 1;
        if j >= n { break; }
        if j + 1 < n && Less(cells, items[j + 1], items[j]) { j := j + 1; }
        if !Less(cells, items[j], items[i]) { break; }
        HoleDown(items, cells, n, i, j);
        ghost var before := cells;
        Swap(i, j);
        SameHeap(items, before, cells, n, j);
        i := j;
      }
      moved := i > start;
      if moved { Closed(items, cells, n, i); }
    }

    method Up(start: int)
      requires Agrees(items, cells) && HeapAround(items, cells, |items|, start) && AboveChildren(items, cells, |items|, start)
      modifies this`items, this`cells
      ensures Agrees(items, cells) && Entries(cells) == Entries(old(cells)) && |items| == |old(items)|
      ensures Heap(items, cells, |items|)
    {
      var j := start;
      while j > 0
        invariant 0 <= j < |items| == |old(items)| && Agrees(items, cells) && Entries(cells) == Entries(old(cells))
        invariant HeapAround(items, cells, |items|, j) && AboveChildren(items, cells, |items|, j)
      {
        var i := (j - 1) / 2;
        if !Less(cells, items[j], items[i]) { break; }
        HoleUp(items, cells, |items|, j, i);
        ghost var before := cells;
        Swap(i, j);
        SameHeap(items, before, cells, |items|, i);
        j := i;
      }
      Closed(items, cells, |items|, j);
    }

    /** Repairs the heap after the item at position i changed its rank. */
    method Fix(i: int)
      requires Agrees(items, cells) && 0 <= i < |items| && HeapAround(items, cells, |items|, i)
      modifies this`items, this`cells
      ensures Agrees(items, cells) && Entries(cells) == Entries(old(cells)) && Heap(items, cells, |items|)
    {
      var moved := Down(i, |items|);
      if !moved {
        Up(i);
      }
    }

    method Push(r: Request)
      requires Valid()
      modifies this
      ensures Valid() && Value() == QueueSpec.Push(old(Value()), r)
    {
      var id, n := next, |items|;
      ghost var before, heap := items, cells;
      cells := cells[id := Cell(r, Priority(r), 0, n)];
      items := items + [id];
      next := next + 1;
      AppendedAround(before, heap, id, cells[id]);
      assert Entries(cells) == QueueSpec.Push(old(Value()), r).entries;
      Up(n);
      SameKeys(cells, QueueSpec.Push(old(Value()), r).entries);
    }

    /** Everyone ages; the starved are collected first and promoted afterwards. */
    method AgeAll() returns (promoted: seq<nat>)
      requires Valid()
      modifies this`cells
      ensures Valid() && Entries(cells) == Older1(Entries(old(cells)))
      ensures forall id :: id in promoted <==> id in StarvedOf(Entries(cells))
    {
      hide Heap;
      promoted := [];
      var i := 0;
      ghost var was := cells;
      while i < |items|
        invariant 0 <= i <= |items| && Agrees(items, was) && cells.Keys == was.Keys
        invariant forall id :: id in was ==> cells[id] == if was[id].index < i then was[id].(age := was[id].age + 1) else was[id]
        invariant forall id :: id in promoted <==> id in was && was[id].index < i && was[id].age + 1 >= STARVATION && was[id].priority > 0
      {
        var id := items[i];
        cells := cells[id := cells[id].(age := cells[id].age + 1)];
        if cells[id].age >= STARVATION && cells[id].priority > 0 { promoted := promoted + [id]; }
        i := i + 1;
      }
      AgedHeap(items, was, cells);
    }

    method PromoteAll(promoted: seq<nat>)
      requires Valid() && forall id :: id in promoted ==> id in cells
      modifies this`items, this`cells
      ensures Valid() && Entries(cells) == Lowered(Entries(old(cells)), Members(promoted))
    {
      hide Heap, HeapAround;
      var i := 0;
      ghost var base := Entries(cells);
      ghost var done: set<nat> := {};
      assert base == Lowered(base, done);
      while i < |promoted|
        invariant 0 <= i <= |promoted| && Agrees(items, cells) && Heap(items, cells, |items|) && base.Keys == old(cells).Keys
        invariant done == Members(promoted[..i])
        invariant Entries(cells) == Lowered(base, done)
      {
        var id := promoted[i];
        assert id in Lowered(base, done);
        PromoteKeeps(items, cells, id, base, done);
        cells := Promote(cells, id);
        Fix(cells[id].index);
        done := done + {id};
        i := i + 1;
      }
      assert promoted[..i] == promoted;
      SameKeys(cells, Lowered(base, done));
    }

    /** Brings the root to the end and restores the heap before it. */
    method RootToEnd()
      requires Valid() && |items| > 0
      modifies this`items, this`cells
      ensures Agrees(items, cells) && Entries(cells) == Entries(old(cells)) && |items| == |old(items)|
      ensures Heap(items, cells, |items| - 1) && items[|items| - 1] == old(items)[0]
    {
      hide Agrees, HeapAround, Heap, AboveChildren, BelowParent, Entries;
      var n := |items| - 1;
      RootOut(items, cells);
      ghost var before := cells;
      Swap(0, n);
      SameHeap(items, before, cells, n, 0);
      if n > 0 {
        var moved := Down(0, n);
        if !moved { Closed(items, cells, n, 0) by { SameHeap(items, before, cells, n, 0); } }
      } else {
        SingleHeap(items, cells);
      }
      assert items[n..][0] == items[n];
    }

    /** Takes the first item off the heap. */
    method Take() returns (id: nat, r: Request)
      requires Valid() && |items| > 0
      modifies this`items, this`cells
      ensures Valid() && First(Entries(old(cells)), id) && id in old(cells) && r == old(cells)[id].request
      ensures Entries(cells) == Entries(old(cells)) - {id}
    {
      hide HeapAround, Heap, First;
      id := items[0];
      r := cells[id].request;
      RootIsFirst(items, cells);
      ghost var before := cells;
      RootToEnd();
      SameKeys(cells, Entries(before));
      SameKeys(before, Entries(before));
      Dropped(items, cells);
      cells := cells - {id};
      items := items[..|items| - 1];
    }

    method Pop() returns (r: Option<Request>)
      requires Valid()
      modifies this
      ensures Valid()
      ensures r.None? <==> old(Value()).entries == map[]
      ensures r.None? ==> Value() == old(Value())
      ensures r.Some? ==> exists id ::
        Pops(old(Value()), id, Value()) && id in old(Value()).entries && r.value == old(Value()).entries[id].request
    {
      hide Heap, Agrees, Entries, Aged, First, Older1, Lowered, StarvedOf;
      EmptyTogether(items, cells);
      if |items| == 0 { return None; }
      ghost var start := Value();
      var promoted := AgeAll();
      AgedInTwoPhases(start.entries);
      StarvedKeys(cells, promoted);
      PromoteAll(promoted);
      assert Entries(cells) == Aged(start.entries);
      AgedNotEmpty(start.entries);
      EmptyTogether(items, cells);
      ghost var aged := cells;
      var id, first := Take();
      r := Some(first);
      assert Pops(start, id, Value());
      AgedRequest(start.entries, aged, id);
    }
  }

  lemma SingleHeap(items: seq<nat>, cells: map<nat, Cell>)
    ensures Heap(items, cells, 0)
  {
  }

  lemma StarvedKeys(cells: map<nat, Cell>, promoted: seq<nat>)
    requires forall id :: id in promoted <==> id in StarvedOf(Entries(cells))
    ensures Members(promoted) == StarvedOf(Entries(cells))
    ensures forall id :: id in promoted ==> id in cells
  {
  }

  lemma AgedNotEmpty(entries: map<nat, Entry>)
    requires entries != map[]
    ensures Aged(entries) != map[]
  {
    var id :| id in entries;
    assert id in Aged(entries);
  }

  lemma AgedRequest(entries: map<nat, Entry>, cells: map<nat, Cell>, id: nat)
    requires Entries(cells) == Aged(entries) && id in cells
    ensures id in entries && cells[id].request == entries[id].request
  {
    assert id in Entries(cells);
    assert Entries(cells)[id] == Aged(entries)[id];
  }

  lemma EmptyTogether(items: seq<nat>, cells: map<nat, Cell>)
    requires Agrees(items, cells)
    ensures |items| == 0 <==> cells == map[]
    ensures cells == map[] <==> Entries(cells) == map[]
  {
    if |items| > 0 { assert items[0] in cells; }
    if cells != map[] {
      var id :| id in cells;
      assert id in Entries(cells);
    }
  }

  lemma SameKeys(cells: map<nat, Cell>, entries: map<nat, Entry>)
    requires Entries(cells) == entries
    ensures cells.Keys == entries.Keys
  {
    assert Entries(cells).Keys == cells.Keys;
  }

  lemma AppendedAround(items: seq<nat>, cells: map<nat, Cell>, id: nat, cell: Cell)
    requires Agrees(items, cells) && Heap(items, cells, |items|) && id !in cells && cell.index == |items|
    ensures var (its, cs) := (items + [id], cells[id := cell]);
      Agrees(its, cs) && HeapAround(its, cs, |its|, |items|) && AboveChildren(its, cs, |its|, |items|)
  {
    var its, cs := items + [id], cells[id := cell];
    forall p, c | 0 <= p < |items| && 0 <= c < |items| && Child(p, c)
      ensures Pair(its, cs, p, c)
    {
      assert Pair(items, cells, p, c);
    }
  }

  /** Ages play no part in the order either. */
  lemma AgedHeap(items: seq<nat>, cells: map<nat, Cell>, aged: map<nat, Cell>)
    requires Agrees(items, cells) && Heap(items, cells, |items|) && aged.Keys == cells.Keys
    requires forall id :: id in cells ==> aged[id] == cells[id].(age := cells[id].age + 1)
    ensures Agrees(items, aged) && Heap(items, aged, |items|) && Entries(aged) == Older1(Entries(cells))
  {
    forall p, c | 0 <= p < |items| && 0 <= c < |items| && Child(p, c)
      ensures Pair(items, aged, p, c)
    {
      assert Pair(items, cells, p, c);
    }
  }

  lemma RootIsFirst(items: seq<nat>, cells: map<nat, Cell>)
    requires Agrees(items, cells) && Heap(items, cells, |items|) && |items| > 0
    ensures First(Entries(cells), items[0])
  {
    forall k | k in Entries(cells)
      ensures Precedes(Entries(cells), items[0], k)
    {
      RootFirst(items, cells, |items|, cells[k].index);
    }
  }

  /** With the root swapped to the end, the rest is a heap except at its new root. */
  lemma RootOut(items: seq<nat>, cells: map<nat, Cell>)
    requires Agrees(items, cells) && Heap(items, cells, |items|) && |items| > 0
    ensures HeapAround(SwapItems(items, 0, |items| - 1), cells, |items| - 1, 0)
    ensures |items| > 1 ==> BelowParent(SwapItems(items, 0, |items| - 1), cells, |items| - 1, 0)
    ensures SwapItems(items, 0, |items| - 1)[|items| - 1..] == [items[0]]
  {
    var n := |items| - 1;
    var t := SwapItems(items, 0, n);
    forall p, c | 0 <= p < n && 0 <= c < n && Child(p, c) && p != 0 && c != 0
      ensures Pair(t, cells, p, c)
    {
      assert Pair(items, cells, p, c);
    }
  }

  lemma Dropped(items: seq<nat>, cells: map<nat, Cell>)
    requires Agrees(items, cells) && |items| > 0 && Heap(items, cells, |items| - 1)
    ensures var (its, cs) := (items[..|items| - 1], cells - {items[|items| - 1]});
      && Agrees(its, cs) && Heap(its, cs, |its|)
      && Entries(cs) == Entries(cells) - {items[|items| - 1]}
  {
    var its, cs := items[..|items| - 1], cells - {items[|items| - 1]};
    forall p, c | 0 <= p < |its| && 0 <= c < |its| && Child(p, c)
      ensures Pair(its, cs, p, c)
    {
      assert Pair(items, cells, p, c);
    }
  }
}
