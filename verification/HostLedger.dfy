/** aa24AccountSequence as the host runs it: two fields updated in place by nested scans. */
module HostLedger {
  import opened LinkLedger

  const MAX64 := 0xFFFF_FFFF_FFFF_FFFF

  /** Advancing in 64 bits: the last ordinal is never passed. */
  function AdvanceWide(l: Ledger): Ledger
    decreases |l.explained|
  {
    var i := IndexOf(l.explained, l.next);
    if i == |l.explained| || l.next == MAX64 then l else AdvanceWide(Ledger(l.next + 1, Without(l.explained, i)))
  }

  /** The 64-bit ledger: accounting the last ordinal leaves the boundary at it. */
  function AccountWide(l: Ledger, ordinal: nat, control: bool, capacity: nat): (bool, Ledger) {
    if ordinal != l.next then Account(l, ordinal, control, capacity)
    else if ordinal == MAX64 then (true, l)
    else (true, AdvanceWide(l.(next := ordinal + 1)))
  }

  lemma WithoutMembers(s: seq<nat>, i: nat)
    requires i < |s|
    ensures |Without(s, i)| == |s| - 1 && forall x :: x in Without(s, i) ==> x in s
  {
  }

  lemma {:induction false} AdvanceAgrees(l: Ledger)
    requires forall e :: e in l.explained ==> e < MAX64
    ensures AdvanceWide(l) == Advance(l)
    decreases |l.explained|
  {
    var i := IndexOf(l.explained, l.next);
    if i < |l.explained| {
      assert l.next in l.explained;
      WithoutMembers(l.explained, i);
      AdvanceAgrees(Ledger(l.next + 1, Without(l.explained, i)));
    }
  }

  /** Below the last ordinal the 64-bit ledger is the one the interleavings are proved with. */
  lemma AccountAgrees(l: Ledger, ordinal: nat, control: bool, capacity: nat)
    requires ordinal < MAX64 && forall e :: e in l.explained ==> e < MAX64
    ensures AccountWide(l, ordinal, control, capacity) == Account(l, ordinal, control, capacity)
  {
    hide Advance, AdvanceWide;
    AdvanceAgrees(l.(next := ordinal + 1));
  }

  class Books {
    const capacity: nat
    var nextCapture: nat
    var explained: seq<nat>

    constructor (capacity: nat)
      ensures this.capacity == capacity && Entries() == Ledger(1, [])
    {
      this.capacity := capacity;
      nextCapture, explained := 1, [];
    }

    function Entries(): Ledger
      reads this
    {
      Ledger(nextCapture, explained)
    }

    /** Verifies one worker ordinal; early control stays explained until data catches up. */
    method AccountSequence(sequence: nat, control: bool) returns (ok: bool)
      requires sequence <= MAX64
      modifies this`nextCapture, this`explained
      ensures (ok, Entries()) == AccountWide(old(Entries()), sequence, control, capacity)
    {
      hide AdvanceWide, Advance;
      if sequence < nextCapture {
        return false;
      }
      if sequence > nextCapture {
        if !control || |explained| == capacity {
          return false;
        }
        for i := 0 to |explained|
          invariant sequence !in explained[..i]
        {
          if explained[i] == sequence {
            return false;
          }
        }
        explained := explained + [sequence];
        return true;
      }
      if sequence == MAX64 {
        return true;
      }
      nextCapture := sequence + 1;
      ghost var goal := AdvanceWide(Entries());
      var advanced := true;
      while advanced
        invariant goal == if advanced then AdvanceWide(Entries()) else Entries()
        decreases |explained|, if advanced then 1 else 0
      {
        advanced := PassOne();
      }
      ok := true;
    }

    /** One scan: passes the boundary over an explained ordinal that follows directly. */
    method PassOne() returns (advanced: bool)
      modifies this`nextCapture, this`explained
      ensures advanced ==> AdvanceWide(Entries()) == AdvanceWide(old(Entries())) && |explained| < |old(explained)|
      ensures !advanced ==> Entries() == old(Entries()) == AdvanceWide(Entries())
    {
      var i := 0;
      while i < |explained| && (explained[i] != nextCapture || explained[i] == MAX64)
        invariant i <= |explained| && (nextCapture != MAX64 ==> nextCapture !in explained[..i])
      {
        i := i + 1;
      }
      if nextCapture != MAX64 { FirstIndex(explained, nextCapture, i); }
      if i == |explained| { return false; }
      WithoutMembers(explained, i);
      nextCapture, explained := nextCapture + 1, Without(explained, i);
      return true;
    }
  }

  lemma {:induction false} FirstIndex(s: seq<nat>, x: nat, i: nat)
    requires i <= |s| && x !in s[..i] && (i < |s| ==> s[i] == x)
    ensures IndexOf(s, x) == i
  {
    if i > 0 {
      assert s[0] in s[..i];
      assert s[..i][1..] == s[1..][..i - 1];
      FirstIndex(s[1..], x, i - 1);
    }
  }
}
