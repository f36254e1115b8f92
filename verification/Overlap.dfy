/** Plan entries, and the heapsort that finds two entries a single request could select. */
module Overlap {
  import opened Octets

  datatype Operation = OperationUnspecified | OperationRead | OperationStateful

  datatype Phase = PhaseNone | PhaseRequest | PhaseTargetAck | PhaseResponse | PhaseInitiatorAck | PhaseEnded

  /** One exact match and its prepared, escaped response. */
  datatype Entry = Entry(
    any: bool, source: byte, destination: byte, pb: byte, sb: byte, requestLength: nat, request: seq<byte>,
    operation: Operation, phase: Phase, maxEncoded: nat, response: seq<byte>)

  /** aa23EntriesOverlap: some request could select both. */
  predicate Overlap(a: Entry, b: Entry) {
    && a.pb == b.pb && a.sb == b.sb && a.request == b.request
    && (a.any || b.any || a.source == b.source)
  }

  ghost predicate SomeOverlap(entries: seq<Entry>) {
    exists i, k :: 0 <= i < k < |entries| && Overlap(entries[i], entries[k])
  }

  // ---- The order ----

  /** bytes.Compare: lexicographic, a proper prefix first. */
  function Compare(a: seq<byte>, b: seq<byte>): int {
    if a == [] && b == [] then 0
    else if a == [] then -1
    else if b == [] then 1
    else if a[0] != b[0] then if a[0] < b[0] then -1 else 1
    else Compare(a[1..], b[1..])
  }

  lemma {:induction false} CompareEqual(a: seq<byte>, b: seq<byte>)
    ensures Compare(a, b) == 0 <==> a == b
  {
    if a != [] && b != [] && a[0] == b[0] {
      CompareEqual(a[1..], b[1..]);
      assert a == [a[0]] + a[1..] && b == [b[0]] + b[1..];
    }
  }

  lemma {:induction false} CompareSwaps(a: seq<byte>, b: seq<byte>)
    ensures Compare(a, b) == -Compare(b, a)
  {
    if a != [] && b != [] && a[0] == b[0] {
      CompareSwaps(a[1..], b[1..]);
    }
  }

  lemma {:induction false} CompareChains(a: seq<byte>, b: seq<byte>, c: seq<byte>)
    requires Compare(a, b) <= 0 && Compare(b, c) <= 0
    ensures Compare(a, c) <= 0
    ensures Compare(a, c) == 0 ==> Compare(a, b) == 0 && Compare(b, c) == 0
  {
    if a != [] && b != [] && c != [] && a[0] == b[0] && b[0] == c[0] {
      CompareChains(a[1..], b[1..], c[1..]);
    }
  }

  /** aa23OverlapLess: PB, SB, request bytes, then any-source first, then source. */
  predicate Less(a: Entry, b: Entry) {
    if a.pb != b.pb then a.pb < b.pb
    else if a.sb != b.sb then a.sb < b.sb
    else if Compare(a.request, b.request) != 0 then Compare(a.request, b.request) < 0
    else if a.any != b.any then a.any
    else a.source < b.source
  }

  /** a may stand before b in sorted order. */
  predicate Before(a: Entry, b: Entry) {
    !Less(b, a)
  }

  lemma BeforeTotal(a: Entry, b: Entry)
    ensures Before(a, b) || Before(b, a)
    ensures Less(a, b) ==> Before(a, b)
  {
    CompareSwaps(a.request, b.request);
  }

  lemma BeforeChains(a: Entry, b: Entry, c: Entry)
    requires Before(a, b) && Before(b, c)
    ensures Before(a, c)
  {
    CompareSwaps(a.request, b.request);
    CompareSwaps(b.request, c.request);
    CompareSwaps(a.request, c.request);
    if a.pb == b.pb == c.pb && a.sb == b.sb == c.sb {
      CompareChains(a.request, b.request, c.request);
    }
  }

  // ---- Heapsort of an index array, in place ----

  /** order lists each entry index once; pos is its inverse. */
  ghost predicate Placed(order: seq<int>, pos: seq<int>) {
    && |order| == |pos|
    && (forall i :: 0 <= i < |order| ==> 0 <= order[i] < |order| && pos[order[i]] == i)
    && (forall x :: 0 <= x < |pos| ==> 0 <= pos[x] < |order| && order[pos[x]] == x)
  }

  ghost predicate OrderOk(entries: seq<Entry>, order: seq<int>) {
    |order| == |entries| && forall i :: 0 <= i < |order| ==> 0 <= order[i] < |entries|
  }

  ghost predicate Child(parent: int, child: int) {
    child == 2 * parent + 1 || child == 2 * parent + 2
  }

  /** The entry at one position may stand before the entry at another. */
  ghost predicate Le(entries: seq<Entry>, order: seq<int>, i: int, k: int)
    requires OrderOk(entries, order) && 0 <= i < |order| && 0 <= k < |order|
  {
    Before(entries[order[i]], entries[order[k]])
  }

  /** Within [root, end) no parent is less than its child, except possibly at hole. */
  ghost predicate HeapExcept(entries: seq<Entry>, order: seq<int>, root: int, end: int, hole: int)
    requires OrderOk(entries, order) && 0 <= root && end <= |order|
  {
    forall i, c :: root <= i && i != hole && Child(i, c) && c < end ==> Le(entries, order, c, i)
  }

  /** The children of the hole are not above the parent of the hole. */
  ghost predicate Bridged(entries: seq<Entry>, order: seq<int>, root: int, end: int, hole: int)
    requires OrderOk(entries, order) && 0 <= root && end <= |order|
  {
    forall i, c :: root <= i && Child(i, hole) && Child(hole, c) && c < end ==> Le(entries, order, c, i)
  }

  /** Moving the larger child into the hole moves the hole down. */
  lemma HoleMovesDown(entries: seq<Entry>, a: seq<int>, root: int, end: int, hole: int, c: int)
    requires OrderOk(entries, a) && 0 <= root <= hole < end <= |a| && Child(hole, c) && c < end
    requires HeapExcept(entries, a, root, end, hole) && Bridged(entries, a, root, end, hole)
    requires Le(entries, a, hole, c)
    requires forall d :: Child(hole, d) && d < end ==> Le(entries, a, d, c)
    ensures var b := a[hole := a[c]][c := a[hole]];
            OrderOk(entries, b) && HeapExcept(entries, b, root, end, c) && Bridged(entries, b, root, end, c)
  {
    hide Before;
    var b := a[hole := a[c]][c := a[hole]];
    forall i, d | root <= i && i != c && Child(i, d) && d < end
      ensures Le(entries, b, d, i)
    {
      if i == hole {
        assert Le(entries, a, if d == c then hole else d, c);
      } else {
        assert Le(entries, a, if d == hole then c else d, i);
      }
    }
    forall i, d | root <= i && Child(i, c) && Child(c, d) && d < end
      ensures Le(entries, b, d, i)
    {
      assert i == hole;
      assert Le(entries, a, d, c);
    }
  }

  lemma HoleClosed(entries: seq<Entry>, a: seq<int>, root: int, end: int, hole: int)
    requires OrderOk(entries, a) && 0 <= root <= hole < end <= |a|
    requires HeapExcept(entries, a, root, end, hole)
    requires forall d :: Child(hole, d) && d < end ==> Le(entries, a, d, hole)
    ensures HeapExcept(entries, a, root, end, root - 1)
  {
    hide Le;
  }

  lemma SwapPlaced(a: seq<int>, pos: seq<int>, i: int, k: int)
    requires Placed(a, pos) && 0 <= i < |a| && 0 <= k < |a| && i != k
    ensures Placed(a[i := a[k]][k := a[i]], pos[a[i] := k][a[k] := i])
  {
  }

  /** A sift only rearranges positions in [root, end). */
  ghost predicate Rearranged(a: seq<int>, pos: seq<int>, b: seq<int>, pos': seq<int>, root: int, end: int) {
    && Placed(b, pos') && |a| == |b| && |pos| == |pos'|
    && (forall i :: 0 <= i < |a| && !(root <= i < end) ==> b[i] == a[i])
    && (forall x :: 0 <= x < |pos| ==> (root <= pos'[x] < end <==> root <= pos[x] < end))
  }

  lemma SwapRearranges(a: seq<int>, pos: seq<int>, b: seq<int>, pos': seq<int>, root: int, end: int, i: int, k: int)
    requires Rearranged(a, pos, b, pos', root, end)
    requires 0 <= root <= i < k < end <= |b|
    ensures Rearranged(a, pos, b[i := b[k]][k := b[i]], pos'[b[i] := k][b[k] := i], root, end)
  {
    SwapPlaced(b, pos', i, k);
  }

  lemma PlacedOk(entries: seq<Entry>, a: seq<int>, pos: seq<int>)
    requires Placed(a, pos) && |a| == |entries|
    ensures OrderOk(entries, a)
  {
  }

  lemma StartRearranged(a: seq<int>, pos: seq<int>, root: int, end: int)
    requires Placed(a, pos)
    ensures Rearranged(a, pos, a, pos, root, end)
  {
  }

  lemma StartBridged(entries: seq<Entry>, a: seq<int>, root: int, end: int)
    requires OrderOk(entries, a) && 0 <= root && end <= |a|
    ensures Bridged(entries, a, root, end, root)
  {
    hide Le;
  }

  lemma RearrangedSizes(a: seq<int>, pos: seq<int>, b: seq<int>, pos': seq<int>, root: int, end: int)
    requires Rearranged(a, pos, b, pos', root, end)
    ensures |a| == |b| == |pos'| && Placed(b, pos')
    ensures forall i :: 0 <= i < |b| ==> 0 <= b[i] < |pos'|
  {
  }

  lemma InRange(entries: seq<Entry>, a: seq<int>)
    requires OrderOk(entries, a)
    ensures |a| == |entries| && forall i :: 0 <= i < |a| ==> 0 <= a[i] < |entries|
  {
  }

  /** The chosen child is not less than its sibling. */
  ghost predicate Chosen(entries: seq<Entry>, a: seq<int>, root: int, end: int, child: int)
    requires OrderOk(entries, a) && end <= |a|
  {
    && 0 <= root && Child(root, child) && child < end
    && forall d :: Child(root, d) && d < end ==> Le(entries, a, d, child)
  }

  lemma Larger(entries: seq<Entry>, a: seq<int>, root: int, end: int, child: int)
    requires OrderOk(entries, a) && 0 <= root && child < end <= |a|
    requires child == 2 * root + 1 || child == 2 * root + 2
    requires child == 2 * root + 1 && child + 1 < end ==> !Less(entries[a[child]], entries[a[child + 1]])
    requires child == 2 * root + 2 ==> Less(entries[a[child - 1]], entries[a[child]])
    ensures Chosen(entries, a, root, end, child)
  {
    hide Less;
    forall d | Child(root, d) && d < end
      ensures Le(entries, a, d, child)
    {
      BeforeTotal(entries[a[d]], entries[a[child]]);
    }
  }

  /** A root that is not less than the chosen child needs no sift. */
  lemma Enough(entries: seq<Entry>, a: seq<int>, root: int, end: int, child: int)
    requires OrderOk(entries, a) && end <= |a| && Chosen(entries, a, root, end, child)
    requires !Less(entries[a[root]], entries[a[child]])
    ensures forall d :: Child(root, d) && d < end ==> Le(entries, a, d, root)
  {
    hide Less;
    forall d | Child(root, d) && d < end
      ensures Le(entries, a, d, root)
    {
      assert Le(entries, a, d, child);
      BeforeChains(entries[a[d]], entries[a[child]], entries[a[root]]);
    }
  }

  method SiftDown(entries: seq<Entry>, order: array<int>, top: nat, end: nat, ghost pos: seq<int>) returns (ghost pos': seq<int>)
    requires order.Length == |entries| && top < end <= order.Length && Placed(order[..], pos)
    requires OrderOk(entries, order[..]) && HeapExcept(entries, order[..], top, end, top)
    modifies order
    ensures Rearranged(old(order[..]), pos, order[..], pos', top, end)
    ensures OrderOk(entries, order[..]) && HeapExcept(entries, order[..], top, end, top - 1)
  {
    hide Placed, HeapExcept, Bridged, Rearranged, Less, OrderOk, Before;
    var root := top;
    pos' := pos;
    StartRearranged(order[..], pos, top, end);
    StartBridged(entries, order[..], top, end);
    while true
      invariant top <= root < end && order.Length == |entries|
      invariant Rearranged(old(order[..]), pos, order[..], pos', top, end)
      invariant OrderOk(entries, order[..])
      invariant HeapExcept(entries, order[..], top, end, root) && Bridged(entries, order[..], top, end, root)
      decreases end - root
    {
      InRange(entries, order[..]);
      var child := 2 * root + 1;
      if child >= end {
        HoleClosed(entries, order[..], top, end, root);
        return;
      }
      if child + 1 < end && Less(entries[order[child]], entries[order[child + 1]]) {
        child := child + 1;
      }
      Larger(entries, order[..], root, end, child);
      if !Less(entries[order[root]], entries[order[child]]) {
        Enough(entries, order[..], root, end, child);
        HoleClosed(entries, order[..], top, end, root);
        return;
      }
      BeforeTotal(entries[order[root]], entries[order[child]]);
      assert Le(entries, order[..], root, child);
      HoleMovesDown(entries, order[..], top, end, root, child);
      RearrangedSizes(old(order[..]), pos, order[..], pos', top, end);
      SwapRearranges(old(order[..]), pos, order[..], pos', top, end, root, child);
      pos' := pos'[order[root] := child][order[child] := root];
      ghost var before := order[..];
      order[root], order[child] := order[child], order[root];
      assert order[..] == before[root := before[child]][child := before[root]];
      root := child;
    }
  }

  // ---- The sort ----

  /** Nothing before end is above anything from end on. */
  ghost predicate Split(entries: seq<Entry>, a: seq<int>, end: int)
    requires OrderOk(entries, a)
  {
    forall i, k :: 0 <= i < end <= k < |a| ==> Le(entries, a, i, k)
  }

  ghost predicate SortedFrom(entries: seq<Entry>, a: seq<int>, start: int)
    requires OrderOk(entries, a)
  {
    forall i, k :: 0 <= start <= i < k < |a| ==> Le(entries, a, i, k)
  }

  /** The root of a heap is not less than anything in it. */
  lemma {:induction false} RootIsLargest(entries: seq<Entry>, a: seq<int>, end: int, i: int)
    requires OrderOk(entries, a) && 0 <= i < end <= |a| && HeapExcept(entries, a, 0, end, -1)
    ensures Le(entries, a, i, 0)
    decreases i
  {
    hide Before;
    if i == 0 {
      BeforeTotal(entries[a[0]], entries[a[0]]);
    } else {
      var parent := (i - 1) / 2;
      assert Child(parent, i);
      RootIsLargest(entries, a, end, parent);
      assert Le(entries, a, i, parent);
      BeforeChains(entries[a[i]], entries[a[parent]], entries[a[0]]);
    }
  }

  /** Taking the root out of the heap to position end extends the sorted tail by one. */
  lemma TakeLargest(entries: seq<Entry>, a: seq<int>, end: int)
    requires OrderOk(entries, a) && 0 < end < |a|
    requires HeapExcept(entries, a, 0, end + 1, -1) && Split(entries, a, end + 1) && SortedFrom(entries, a, end + 1)
    ensures var b := a[0 := a[end]][end := a[0]];
            && OrderOk(entries, b) && HeapExcept(entries, b, 0, end, 0)
            && Split(entries, b, end) && SortedFrom(entries, b, end)
  {
    hide Before;
    var b := a[0 := a[end]][end := a[0]];
    forall i, k | 0 <= i < end <= k < |a|
      ensures Le(entries, b, i, k)
    {
      var was := if i == 0 then end else i;
      if k == end {
        RootIsLargest(entries, a, end + 1, was);
        assert Le(entries, a, was, 0);
      } else {
        assert Le(entries, a, was, k);
      }
    }
    forall i, k | 0 <= end <= i < k < |a|
      ensures Le(entries, b, i, k)
    {
      assert Le(entries, a, if i == end then 0 else i, k);
    }
    forall i, c | 0 <= i && i != 0 && Child(i, c) && c < end
      ensures Le(entries, b, c, i)
    {
      assert Le(entries, a, c, i);
    }
  }

  lemma SiftKeepsTail(entries: seq<Entry>, a: seq<int>, pos: seq<int>, b: seq<int>, pos': seq<int>, end: int)
    requires Placed(a, pos) && Rearranged(a, pos, b, pos', 0, end) && 0 <= end <= |a|
    requires OrderOk(entries, a) && OrderOk(entries, b)
    requires Split(entries, a, end) && SortedFrom(entries, a, end)
    ensures Split(entries, b, end) && SortedFrom(entries, b, end)
  {
    hide Before;
    forall i, k | 0 <= i < end <= k < |b|
      ensures Le(entries, b, i, k)
    {
      var was := pos[b[i]];
      assert a[was] == b[i] && 0 <= was < end;
      assert Le(entries, a, was, k);
    }
    forall i, k | 0 <= end <= i < k < |b|
      ensures Le(entries, b, i, k)
    {
      assert Le(entries, a, i, k);
    }
  }

  lemma HeapGrows(entries: seq<Entry>, a: seq<int>, root: int, end: int)
    requires OrderOk(entries, a) && 0 <= root && end <= |a|
    requires HeapExcept(entries, a, root + 1, end, root)
    ensures HeapExcept(entries, a, root, end, root)
  {
    hide Le;
  }

  lemma LeavesAreHeap(entries: seq<Entry>, a: seq<int>)
    requires OrderOk(entries, a)
    ensures HeapExcept(entries, a, |a| / 2, |a|, |a| / 2 - 1)
  {
    hide Le;
  }

  method HeapSort(entries: seq<Entry>, order: array<int>) returns (ghost pos: seq<int>)
    requires order.Length == |entries|
    modifies order
    ensures Placed(order[..], pos) && OrderOk(entries, order[..]) && SortedFrom(entries, order[..], 0)
  {
    hide Placed, HeapExcept, Le, Rearranged, OrderOk, Split, SortedFrom;
    var n := order.Length;
    for i := 0 to n
      invariant forall k :: 0 <= k < i ==> order[k] == k
    {
      order[i] := i;
    }
    pos := order[..];
    IdentityPlaced(order[..]);
    PlacedOk(entries, order[..], pos);
    LeavesAreHeap(entries, order[..]);
    var start := n / 2;
    while start > 0
      invariant 0 <= start <= n / 2 && Placed(order[..], pos) && OrderOk(entries, order[..])
      invariant HeapExcept(entries, order[..], start, n, start - 1)
    {
      start := start - 1;
      HeapGrows(entries, order[..], start, n);
      ghost var a, p := order[..], pos;
      pos := SiftDown(entries, order, start, n, pos);
      RearrangedSizes(a, p, order[..], pos, start, n);
    }
    WholeHeap(entries, order[..]);
    var end := n;
    while end > 1
      invariant 0 <= end <= n && (end >= 1 || n == 0)
      invariant Placed(order[..], pos) && OrderOk(entries, order[..])
      invariant HeapExcept(entries, order[..], 0, end, -1)
      invariant Split(entries, order[..], end) && SortedFrom(entries, order[..], end)
    {
      end := end - 1;
      TakeLargest(entries, order[..], end);
      SwapPlaced(order[..], pos, 0, end);
      ghost var a := order[..];
      InRange(entries, a);
      PlacedSizes(a, pos);
      pos := pos[a[0] := end][a[end] := 0];
      order[0], order[end] := order[end], order[0];
      assert order[..] == a[0 := a[end]][end := a[0]];
      ghost var b, p := order[..], pos;
      pos := SiftDown(entries, order, 0, end, pos);
      SiftKeepsTail(entries, b, p, order[..], pos, end);
      RearrangedSizes(b, p, order[..], pos, 0, end);
    }
    AllSorted(entries, order[..], end);
  }

  lemma PlacedSizes(a: seq<int>, pos: seq<int>)
    requires Placed(a, pos)
    ensures |a| == |pos|
  {
  }

  lemma IdentityPlaced(a: seq<int>)
    requires forall k :: 0 <= k < |a| ==> a[k] == k
    ensures Placed(a, a)
  {
  }

  lemma WholeHeap(entries: seq<Entry>, a: seq<int>)
    requires OrderOk(entries, a) && HeapExcept(entries, a, 0, |a|, -1)
    ensures Split(entries, a, |a|) && SortedFrom(entries, a, |a|)
  {
    hide Le;
  }

  lemma AllSorted(entries: seq<Entry>, a: seq<int>, end: int)
    requires OrderOk(entries, a) && (end == 1 || |a| == 0)
    requires Split(entries, a, end) && SortedFrom(entries, a, end)
    ensures SortedFrom(entries, a, 0)
  {
    hide Le;
  }

  // ---- The detector ----

  /** The neighbour test of the detector. */
  predicate NeighboursClash(prior: Entry, next: Entry) {
    && prior.pb == next.pb && prior.sb == next.sb && prior.request == next.request
    && (prior.any || prior.source == next.source)
  }

  /** In sorted order a clash of neighbours is an overlap. */
  lemma ClashIsOverlap(entries: seq<Entry>, a: seq<int>, pos: seq<int>, i: int)
    requires Placed(a, pos) && OrderOk(entries, a) && 0 < i < |a|
    requires NeighboursClash(entries[a[i - 1]], entries[a[i]])
    ensures SomeOverlap(entries)
  {
    var x, y := a[i - 1], a[i];
    assert x != y;
    if x < y {
      assert Overlap(entries[x], entries[y]);
    } else {
      assert Overlap(entries[y], entries[x]);
    }
  }

  /** Between two overlapping entries, sorted neighbours clash. */
  lemma SandwichedClash(x: Entry, y: Entry, z: Entry)
    requires Overlap(x, z) && Before(x, y) && Before(y, z)
    ensures NeighboursClash(x, y)
  {
    CompareEqual(x.request, y.request);
    CompareEqual(y.request, z.request);
    CompareSwaps(x.request, y.request);
    CompareSwaps(y.request, z.request);
    CompareSwaps(x.request, z.request);
    if x.pb == y.pb && x.sb == y.sb {
      CompareChains(x.request, y.request, z.request);
    }
    CompareEqual(x.request, z.request);
  }

  /** An overlapping pair makes some pair of sorted neighbours clash. */
  lemma OverlapMakesClash(entries: seq<Entry>, a: seq<int>, pos: seq<int>)
    requires Placed(a, pos) && OrderOk(entries, a) && SortedFrom(entries, a, 0) && SomeOverlap(entries)
    ensures exists i :: 0 < i < |a| && NeighboursClash(entries[a[i - 1]], entries[a[i]])
  {
    hide Before, Overlap, NeighboursClash;
    var p, q :| 0 <= p < q < |entries| && Overlap(entries[p], entries[q]);
    var i, k := pos[p], pos[q];
    assert a[i] == p && a[k] == q;
    OverlapSymmetric(entries[p], entries[q]);
    if k < i {
      i, k := k, i;
    }
    BeforeTotal(entries[a[k]], entries[a[k]]);
    assert Le(entries, a, i, i + 1);
    assert i + 1 < k ==> Le(entries, a, i + 1, k);
    SandwichedClash(entries[a[i]], entries[a[i + 1]], entries[a[k]]);
    assert NeighboursClash(entries[a[i + 1 - 1]], entries[a[i + 1]]);
  }

  lemma OverlapSymmetric(a: Entry, b: Entry)
    ensures Overlap(a, b) <==> Overlap(b, a)
  {
  }

  /** aa23PlanOverlaps: sort, then compare neighbours. It reports exactly the plans with an overlapping pair. */
  method PlanOverlaps(entries: seq<Entry>, order: array<int>) returns (r: bool)
    requires order.Length == |entries|
    modifies order
    ensures r <==> SomeOverlap(entries)
  {
    hide Placed, OrderOk, SortedFrom, SomeOverlap;
    ghost var pos := HeapSort(entries, order);
    InRange(entries, order[..]);
    var i := 1;
    while i < order.Length
      invariant 1 <= i && forall k :: 0 < k < i && k < order.Length ==> !NeighboursClash(entries[order[k - 1]], entries[order[k]])
    {
      var prior, next := entries[order[i - 1]], entries[order[i]];
      if prior.pb == next.pb && prior.sb == next.sb && prior.request == next.request {
        if prior.any || prior.source == next.source {
          ClashIsOverlap(entries, order[..], pos, i);
          return true;
        }
      }
      i := i + 1;
    }
    if SomeOverlap(entries) {
      OverlapMakesClash(entries, order[..], pos);
    }
    r := false;
  }

  // ---- What a plan without overlap promises ----

  datatype Query = Query(source: byte, destination: byte, pb: byte, sb: byte, data: seq<byte>)

  predicate Selects(e: Entry, q: Query) {
    (e.any || e.source == q.source) && e.pb == q.pb && e.sb == q.sb && e.request == q.data
  }

  /** Two entries overlap exactly when some request selects both. */
  lemma OverlapMeansShared(a: Entry, b: Entry)
    ensures Overlap(a, b) <==> exists q: Query :: Selects(a, q) && Selects(b, q)
  {
    var q := Query(if a.any then b.source else a.source, 0, a.pb, a.sb, a.request);
    assert Overlap(a, b) ==> Selects(a, q) && Selects(b, q);
  }

  /** Without overlap at most one entry answers a request, so the scan order does not matter. */
  lemma SelectionUnique(entries: seq<Entry>, q: Query, i: nat, k: nat)
    requires !SomeOverlap(entries) && i < |entries| && k < |entries|
    requires Selects(entries[i], q) && Selects(entries[k], q)
    ensures i == k
  {
    assert Overlap(entries[i], entries[k]) && Overlap(entries[k], entries[i]);
  }
}
