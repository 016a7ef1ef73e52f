/** The open-addressing hash set that remembers expanded rows during one search.

    Slot value 0 means empty, so row 0 is never stored. The hash is an arbitrary
    function, so nothing here depends on how well it spreads. */
module VisitedRows {

  /** Slot of the `i`-th probe: linear probing, wrapping at the end of the table. */
  function Probe(start: nat, i: nat, cap: nat): (slot: nat)
    requires start < cap && i < cap
    ensures slot < cap
  {
    if start + i < cap then start + i else start + i - cap
  }

  /** The probe that reaches `slot`; the inverse of `Probe`. */
  function ProbesTo(start: nat, slot: nat, cap: nat): (i: nat)
    requires start < cap && slot < cap
    ensures i < cap && Probe(start, i, cap) == slot
  {
    if start <= slot then slot - start else slot + cap - start
  }

  function TableSize(requested: nat, size: nat): (cap: nat)
    requires 1 <= size
    ensures requested <= cap && size <= cap
    ensures cap == size || cap < 2 * requested
    decreases requested - size
  {
    if size < requested then TableSize(requested, 2 * size) else size
  }

  ghost predicate PowerOfTwo(n: nat) {
    n == 1 || (n > 1 && n % 2 == 0 && PowerOfTwo(n / 2))
  }

  /** The table is a power of two, so masking a hash is taking it modulo the size. */
  lemma {:induction false} TableSizeDoubles(requested: nat, size: nat)
    requires 1 <= size && PowerOfTwo(size)
    ensures PowerOfTwo(TableSize(requested, size))
    decreases requested - size
  {
    if size < requested {
      TableSizeDoubles(requested, 2 * size);
    }
  }

  /** Every stored row is reached from its home slot without crossing an empty slot. */
  ghost predicate Reachable(slots: seq<int>, home: int -> nat) {
    forall p :: 0 <= p < |slots| && slots[p] != 0 ==> Unbroken(slots, home(slots[p]) % |slots|, p)
  }

  ghost predicate Unbroken(slots: seq<int>, start: nat, p: nat)
    requires start < |slots| && p < |slots|
  {
    forall i :: 0 <= i < ProbesTo(start, p, |slots|) ==> slots[Probe(start, i, |slots|)] != 0
  }

  ghost predicate NoDuplicates(slots: seq<int>) {
    forall p, q :: 0 <= p < q < |slots| && slots[p] != 0 ==> slots[p] != slots[q]
  }

  ghost function Members(slots: seq<int>): (rows: set<int>) {
    set p | 0 <= p < |slots| && slots[p] != 0 :: slots[p]
  }

  /** An empty slot on the way to `rowid` proves that it is not stored. */
  lemma EmptyEndsProbe(slots: seq<int>, home: int -> nat, rowid: int, i: nat)
    requires |slots| > 0 && Reachable(slots, home) && i < |slots| && rowid != 0
    requires slots[Probe(home(rowid) % |slots|, i, |slots|)] == 0
    requires forall j :: 0 <= j < i ==> slots[Probe(home(rowid) % |slots|, j, |slots|)] != rowid
    ensures rowid !in Members(slots)
  {
    var start := home(rowid) % |slots|;
    forall p | 0 <= p < |slots|
      ensures slots[p] != rowid
    {
      var j := ProbesTo(start, p, |slots|);
      assert slots[p] == rowid ==> Unbroken(slots, start, p);
      assert slots[p] == slots[Probe(start, j, |slots|)];
    }
  }

  /** Probing the whole table without meeting `rowid` proves that it is not stored. */
  lemma FullProbe(slots: seq<int>, start: nat, rowid: int)
    requires start < |slots| && rowid != 0
    requires forall j :: 0 <= j < |slots| ==> slots[Probe(start, j, |slots|)] != rowid
    ensures rowid !in Members(slots)
  {
    forall p | 0 <= p < |slots|
      ensures slots[p] != rowid
    {
      assert slots[p] == slots[Probe(start, ProbesTo(start, p, |slots|), |slots|)];
    }
  }

  /** Filling the first empty slot on the way keeps every probe path unbroken. */
  lemma FillKeepsReachable(slots: seq<int>, home: int -> nat, rowid: int, i: nat)
    requires |slots| > 0 && Reachable(slots, home) && i < |slots| && rowid != 0
    requires forall j :: 0 <= j < i ==> slots[Probe(home(rowid) % |slots|, j, |slots|)] != 0
    ensures Reachable(slots[Probe(home(rowid) % |slots|, i, |slots|) := rowid], home)
  {
    var start := home(rowid) % |slots|;
    var at := Probe(start, i, |slots|);
    var after := slots[at := rowid];
    forall p | 0 <= p < |after| && after[p] != 0
      ensures Unbroken(after, home(after[p]) % |after|, p)
    {
      if p != at {
        assert Unbroken(slots, home(slots[p]) % |slots|, p);
      }
    }
  }

  /** A table without duplicates has an empty slot exactly while it holds fewer rows than slots. */
  lemma {:induction false} RoomLeft(slots: seq<int>)
    requires NoDuplicates(slots)
    ensures |Members(slots)| <= |slots|
    ensures 0 in slots <==> |Members(slots)| < |slots|
  {
    if slots == [] {
      assert Members(slots) == {};
    } else {
      var n := |slots| - 1;
      RoomLeft(slots[..n]);
      assert slots == slots[..n] + [slots[n]];
      if slots[n] == 0 {
        assert Members(slots) == Members(slots[..n]);
      } else {
        assert slots[n] !in Members(slots[..n]);
        assert Members(slots) == Members(slots[..n]) + {slots[n]};
      }
    }
  }

  class VisitedSet {
    const slots: array<int>
    const home: int -> nat
    var count: nat

    ghost predicate Valid()
      reads this, slots
    {
      0 < slots.Length && Reachable(slots[..], home) && NoDuplicates(slots[..]) && count == |Rows()|
    }

    ghost function Rows(): (rows: set<int>)
      reads this, slots
    {
      Members(slots[..])
    }

    constructor (requested: nat, home: int -> nat)
      ensures Valid() && fresh(slots) && Rows() == {} && slots.Length == TableSize(requested, 16)
    {
      this.home := home;
      slots := new int[TableSize(requested, 16)](_ => 0);
      count := 0;
    }

    method Contains(rowid: int) returns (found: bool)
      requires Valid()
      ensures found <==> rowid in Rows()
    {
      if rowid == 0 {
        return false;
      }
      var start := home(rowid) % slots.Length;
      for i := 0 to slots.Length
        invariant forall j :: 0 <= j < i ==> slots[..][Probe(start, j, slots.Length)] != rowid
      {
        var slot := Probe(start, i, slots.Length);
        if slots[slot] == 0 {
          EmptyEndsProbe(slots[..], home, rowid, i);
          return false;
        }
        if slots[slot] == rowid {
          assert slots[..][slot] == rowid;
          return true;
        }
      }
      FullProbe(slots[..], start, rowid);
      return false;
    }

    /** Row 0, a known row and a full table all leave the set as it was. */
    method Insert(rowid: int) returns (added: bool)
      requires Valid()
      modifies this, slots
      ensures Valid()
      ensures added <==> rowid != 0 && rowid !in old(Rows()) && 0 in old(slots[..])
      ensures Rows() == if added then old(Rows()) + {rowid} else old(Rows())
      ensures count == if added then old(count) + 1 else old(count)
    {
      if rowid == 0 {
        return false;
      }
      ghost var was := slots[..];
      var start := home(rowid) % slots.Length;
      for i := 0 to slots.Length
        invariant slots[..] == was
        invariant forall j :: 0 <= j < i ==> was[Probe(start, j, slots.Length)] != rowid
        invariant forall j :: 0 <= j < i ==> was[Probe(start, j, slots.Length)] != 0
      {
        var slot := Probe(start, i, slots.Length);
        if slots[slot] == 0 {
          EmptyEndsProbe(was, home, rowid, i);
          FillKeepsReachable(was, home, rowid, i);
          assert was[slot] == 0;
          slots[slot] := rowid;
          count := count + 1;
          assert slots[..] == was[slot := rowid];
          MembersAfterFill(was, slot, rowid);
          return true;
        }
        if slots[slot] == rowid {
          assert was[slot] == rowid;
          return false;
        }
      }
      forall p | 0 <= p < slots.Length
        ensures was[p] != 0
      {
        assert was[Probe(start, ProbesTo(start, p, slots.Length), slots.Length)] != 0;
      }
      return false;
    }
  }

  lemma MembersAfterFill(slots: seq<int>, at: nat, rowid: int)
    requires at < |slots| && slots[at] == 0 && rowid != 0 && rowid !in Members(slots) && NoDuplicates(slots)
    ensures Members(slots[at := rowid]) == Members(slots) + {rowid}
    ensures NoDuplicates(slots[at := rowid])
  {
    var after := slots[at := rowid];
    assert after[at] == rowid;
    forall r | r in Members(slots)
      ensures r in Members(after)
    {
      var p :| 0 <= p < |slots| && slots[p] != 0 && slots[p] == r;
      assert after[p] == r;
    }
  }
}
