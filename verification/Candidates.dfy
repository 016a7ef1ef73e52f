/** The bounded, sorted candidate list of the DiskANN beam search.

    `Offer` is the value-level meaning of one insertion. `TopOf` is an independent
    reading of what the list is for: the best `cap` rows of everything offered so
    far, each at the least distance it was ever offered at. */
module Candidates {

  datatype Candidate = Candidate(rowid: int, distance: real, visited: bool, confirmed: bool)

  ghost predicate Sorted(s: seq<Candidate>) {
    forall i, j :: 0 <= i < j < |s| ==> s[i].distance <= s[j].distance
  }

  /** No row twice: rows are compared through the bag of entries, not by position. */
  ghost predicate Distinct(b: multiset<Candidate>) {
    && (forall e :: e in b ==> b[e] == 1)
    && (forall e, f :: e in b && f in b && e.rowid == f.rowid ==> e == f)
  }

  ghost predicate Holds(b: multiset<Candidate>, rowid: int) {
    exists e :: e in b && e.rowid == rowid
  }

  /** Index of the first entry for `rowid`, or `|s|`. */
  function IndexOf(s: seq<Candidate>, rowid: int): (i: nat)
    ensures i <= |s|
    ensures i < |s| ==> s[i].rowid == rowid
  {
    if s == [] then 0
    else if s[0].rowid == rowid then 0
    else 1 + IndexOf(s[1..], rowid)
  }

  /** Where a new entry at distance `d` goes: in front of its equals. */
  function LowerBound(s: seq<Candidate>, d: real): (p: nat)
    ensures p <= |s|
  {
    if |s| == 0 || s[|s| - 1].distance < d then |s| else LowerBound(s[..|s| - 1], d)
  }

  /** Where an improved entry moves to: behind its equals. */
  function UpperBound(s: seq<Candidate>, d: real): (p: nat)
    ensures p <= |s|
  {
    if |s| == 0 || s[|s| - 1].distance <= d then |s| else UpperBound(s[..|s| - 1], d)
  }

  lemma IndexOfIsFirst(s: seq<Candidate>, rowid: int)
    ensures forall k :: 0 <= k < IndexOf(s, rowid) ==> s[k].rowid != rowid
  {
  }

  lemma LowerBoundSplits(s: seq<Candidate>, d: real)
    requires Sorted(s)
    ensures forall k :: 0 <= k < LowerBound(s, d) ==> s[k].distance < d
    ensures forall k :: LowerBound(s, d) <= k < |s| ==> s[k].distance >= d
  {
  }

  lemma LowerBoundUnique(s: seq<Candidate>, d: real, p: nat)
    requires p <= |s|
    requires forall k :: 0 <= k < p ==> s[k].distance < d
    requires forall k :: p <= k < |s| ==> s[k].distance >= d
    ensures p == LowerBound(s, d)
  {
  }

  lemma UpperBoundSplits(s: seq<Candidate>, d: real)
    requires Sorted(s)
    ensures forall k :: 0 <= k < UpperBound(s, d) ==> s[k].distance <= d
    ensures forall k :: UpperBound(s, d) <= k < |s| ==> s[k].distance > d
  {
  }

  lemma UpperBoundUnique(s: seq<Candidate>, d: real, p: nat)
    requires p <= |s|
    requires p > 0 ==> s[p - 1].distance <= d
    requires forall k :: p <= k < |s| ==> s[k].distance > d
    ensures p == UpperBound(s, d)
  {
  }

  /** Entry `i` moved left to its place after its distance dropped to `d`. */
  function Improve(s: seq<Candidate>, i: nat, d: real): (r: seq<Candidate>)
    requires i < |s|
    ensures |r| == |s|
  {
    var j := UpperBound(s[..i], d);
    s[..j] + [s[i].(distance := d)] + s[j..i] + s[i + 1..]
  }

  function Place(s: seq<Candidate>, c: Candidate): (r: seq<Candidate>)
    ensures |r| == |s| + 1
  {
    var p := LowerBound(s, c.distance);
    s[..p] + [c] + s[p..]
  }

  lemma ImproveAt(s: seq<Candidate>, i: nat, d: real, r: seq<Candidate>, j: nat)
    requires i < |s| == |r| && j <= i && j == UpperBound(s[..i], d)
    requires forall k :: 0 <= k < j || i < k < |s| ==> r[k] == s[k]
    requires r[j] == s[i].(distance := d)
    requires forall k :: j < k <= i ==> r[k] == s[k - 1]
    ensures r == Improve(s, i, d)
  {
  }

  /** Where sliding left stops is where the entry belongs. */
  lemma Resorted(s: seq<Candidate>, i: nat, d: real, r: seq<Candidate>, j: nat)
    requires i < |s| == |r| && j <= i && (j > 0 ==> s[j - 1].distance <= d)
    requires forall k :: j <= k < i ==> s[k].distance > d
    requires forall k :: 0 <= k < j || i < k < |s| ==> r[k] == s[k]
    requires r[j] == s[i].(distance := d)
    requires forall k :: j < k <= i ==> r[k] == s[k - 1]
    ensures r == Improve(s, i, d)
  {
    UpperBoundUnique(s[..i], d, j);
    ImproveAt(s, i, d, r, j);
  }

  lemma PlaceAt(s: seq<Candidate>, c: Candidate, r: seq<Candidate>, p: nat)
    requires |r| == |s| + 1 && p <= |s| && p == LowerBound(s, c.distance)
    requires forall k :: 0 <= k < p ==> r[k] == s[k]
    requires r[p] == c
    requires forall k :: p < k < |r| ==> r[k] == s[k - 1]
    ensures r == Place(s, c)
  {
  }

  /** True when offering `rowid` at `d` creates a new entry. */
  /** A new entry goes in front of the entries at its own distance or more. */
  lemma PlaceIsLeftmost(s: seq<Candidate>, c: Candidate) returns (p: nat)
    requires Sorted(s)
    ensures p < |Place(s, c)| && Place(s, c)[p] == c && Place(s, c) == s[..p] + [c] + s[p..]
    ensures forall k :: 0 <= k < p ==> s[k].distance < c.distance
    ensures forall k :: p <= k < |s| ==> s[k].distance >= c.distance
  {
    LowerBoundSplits(s, c.distance);
    p := LowerBound(s, c.distance);
  }

  predicate Creates(s: seq<Candidate>, cap: nat, rowid: int, d: real)
    requires 1 <= cap
  {
    IndexOf(s, rowid) == |s| && (|s| < cap || d < s[|s| - 1].distance)
  }

  function Offer(s: seq<Candidate>, cap: nat, rowid: int, d: real): (r: seq<Candidate>)
    requires 1 <= cap && |s| <= cap
    ensures |s| <= |r| <= cap
  {
    var i := IndexOf(s, rowid);
    if i < |s| then
      if d < s[i].distance then Improve(s, i, d) else s
    else if !Creates(s, cap, rowid, d) then s
    else Place(if |s| < cap then s else s[..|s| - 1], Candidate(rowid, d, false, false))
  }

  // ---- what every offer keeps ----------------------------------------------

  lemma IndexOfHolds(s: seq<Candidate>, rowid: int)
    ensures IndexOf(s, rowid) < |s| <==> Holds(multiset(s), rowid)
  {
    IndexOfIsFirst(s, rowid);
    var i := IndexOf(s, rowid);
    if i < |s| {
      assert s[i] in multiset(s);
    }
  }

  lemma ImproveSorted(s: seq<Candidate>, i: nat, d: real)
    requires i < |s| && Sorted(s) && d < s[i].distance
    ensures Sorted(Improve(s, i, d))
  {
    var j := UpperBound(s[..i], d);
    UpperBoundSplits(s[..i], d);
    assert forall k :: 0 <= k < i ==> s[..i][k] == s[k];
  }

  lemma ImproveBag(s: seq<Candidate>, i: nat, d: real)
    requires i < |s|
    ensures multiset(Improve(s, i, d)) == multiset(s) - multiset{s[i]} + multiset{s[i].(distance := d)}
  {
    var j := UpperBound(s[..i], d);
    assert s == s[..j] + s[j..i] + [s[i]] + s[i + 1..];
  }

  lemma PlaceSorted(s: seq<Candidate>, c: Candidate)
    requires Sorted(s)
    ensures Sorted(Place(s, c))
  {
    LowerBoundSplits(s, c.distance);
  }

  lemma PlaceBag(s: seq<Candidate>, c: Candidate)
    ensures multiset(Place(s, c)) == multiset(s) + multiset{c}
  {
    var p := LowerBound(s, c.distance);
    assert s == s[..p] + s[p..];
  }

  lemma OfferSorted(s: seq<Candidate>, cap: nat, rowid: int, d: real)
    requires 1 <= cap && |s| <= cap && Sorted(s)
    ensures Sorted(Offer(s, cap, rowid, d))
  {
    var i := IndexOf(s, rowid);
    if i < |s| {
      if d < s[i].distance {
        ImproveSorted(s, i, d);
      }
    } else {
      PlaceSorted(if |s| < cap then s else s[..|s| - 1], Candidate(rowid, d, false, false));
    }
  }

  ghost function OfferedBag(s: seq<Candidate>, cap: nat, rowid: int, d: real): multiset<Candidate>
    requires 1 <= cap
  {
    var i := IndexOf(s, rowid);
    if i < |s| then
      if d < s[i].distance then multiset(s) - multiset{s[i]} + multiset{s[i].(distance := d)} else multiset(s)
    else if !Creates(s, cap, rowid, d) then multiset(s)
    else if |s| < cap then multiset(s) + multiset{Candidate(rowid, d, false, false)}
    else multiset(s) - multiset{s[|s| - 1]} + multiset{Candidate(rowid, d, false, false)}
  }

  /** The entries after an offer, position forgotten. */
  lemma OfferBag(s: seq<Candidate>, cap: nat, rowid: int, d: real)
    requires 1 <= cap && |s| <= cap
    ensures multiset(Offer(s, cap, rowid, d)) == OfferedBag(s, cap, rowid, d)
  {
    var i := IndexOf(s, rowid);
    if i < |s| {
      if d < s[i].distance {
        ImproveBag(s, i, d);
      }
    } else if |s| < cap {
      PlaceBag(s, Candidate(rowid, d, false, false));
    } else {
      PlaceBag(s[..|s| - 1], Candidate(rowid, d, false, false));
      assert s == s[..|s| - 1] + [s[|s| - 1]];
    }
  }

  /** Least distance each row was ever offered at. */
  type Least = map<int, real>

  function Record(least: Least, rowid: int, d: real): (r: Least)
    ensures r.Keys == least.Keys + {rowid}
    ensures r[rowid] <= d && (rowid in least ==> r[rowid] <= least[rowid])
    ensures r[rowid] == d || (rowid in least && r[rowid] == least[rowid])
    ensures forall q :: q in least && q != rowid ==> r[q] == least[q]
  {
    if rowid in least && least[rowid] <= d then least else least[rowid := d]
  }

  ghost predicate AtLeast(b: multiset<Candidate>, least: Least) {
    forall e :: e in b ==> e.rowid in least && e.distance == least[e.rowid]
  }

  /** No row left out of the bag beats any row in it. */
  ghost predicate LeftOutWorse(b: multiset<Candidate>, least: Least) {
    forall q, e :: q in least && !Holds(b, q) && e in b ==> e.distance <= least[q]
  }

  ghost predicate TopBag(b: multiset<Candidate>, least: Least) {
    Distinct(b) && AtLeast(b, least) && LeftOutWorse(b, least)
  }

  ghost predicate HoldsAll(b: multiset<Candidate>, least: Least) {
    forall q :: q in least ==> Holds(b, q)
  }

  /** The list is the top `cap` of everything offered: only a full list leaves rows out. */
  ghost predicate TopOf(s: seq<Candidate>, cap: nat, least: Least) {
    && |s| <= cap
    && Sorted(s)
    && TopBag(multiset(s), least)
    && (|s| < cap ==> HoldsAll(multiset(s), least))
  }

  lemma DistinctAfter(b: multiset<Candidate>, gone: Candidate, c: Candidate)
    requires Distinct(b)
    requires forall e :: e in b && e.rowid == c.rowid ==> e == gone
    ensures Distinct(b - multiset{gone} + multiset{c})
    ensures gone !in b ==> Distinct(b + multiset{c})
  {
  }

  lemma ImproveHolds(b: multiset<Candidate>, e: Candidate, d: real, q: int)
    requires e in b
    ensures Holds(b, q) ==> Holds(b - multiset{e} + multiset{e.(distance := d)}, q)
  {
    if Holds(b, q) {
      var f :| f in b && f.rowid == q;
      assert (if f == e then e.(distance := d) else f) in b - multiset{e} + multiset{e.(distance := d)};
    }
  }

  lemma ImproveKeepsTop(b: multiset<Candidate>, least: Least, e: Candidate, d: real)
    requires e in b && TopBag(b, least) && d < e.distance
    ensures var b' := b - multiset{e} + multiset{e.(distance := d)};
            && TopBag(b', Record(least, e.rowid, d))
            && (HoldsAll(b, least) ==> HoldsAll(b', Record(least, e.rowid, d)))
  {
    var b' := b - multiset{e} + multiset{e.(distance := d)};
    DistinctAfter(b, e, e.(distance := d));
    forall q {
      ImproveHolds(b, e, d, q);
    }
    assert Holds(b', e.rowid) by {
      assert e.(distance := d) in b';
    }
    assert AtLeast(b', Record(least, e.rowid, d));
  }

  lemma AddKeepsTop(b: multiset<Candidate>, least: Least, c: Candidate)
    requires TopBag(b, least) && HoldsAll(b, least) && !Holds(b, c.rowid)
    ensures var b' := b + multiset{c};
            TopBag(b', Record(least, c.rowid, c.distance)) && HoldsAll(b', Record(least, c.rowid, c.distance))
  {
    var b' := b + multiset{c};
    forall q | q in Record(least, c.rowid, c.distance)
      ensures Holds(b', q)
    {
      if q == c.rowid {
        assert c in b';
      } else {
        var f :| f in b && f.rowid == q;
        assert f in b';
      }
    }
  }

  lemma EvictKeepsTop(b: multiset<Candidate>, least: Least, worst: Candidate, c: Candidate)
    requires TopBag(b, least) && !Holds(b, c.rowid)
    requires worst in b && (forall e :: e in b ==> e.distance <= worst.distance) && c.distance < worst.distance
    ensures TopBag(b - multiset{worst} + multiset{c}, Record(least, c.rowid, c.distance))
  {
    var b' := b - multiset{worst} + multiset{c};
    var least' := Record(least, c.rowid, c.distance);
    assert c in b';
    forall q, e | q in least' && !Holds(b', q) && e in b'
      ensures e.distance <= least'[q]
    {
      assert q != c.rowid && q in least;
      if Holds(b, q) {
        var f :| f in b && f.rowid == q;
        assert f == worst by {
          assert f != worst ==> f in b';
        }
      } else {
        assert worst.distance <= least[q];
      }
    }
  }

  lemma RefuseKeepsTop(b: multiset<Candidate>, least: Least, rowid: int, d: real)
    requires TopBag(b, least)
    requires Holds(b, rowid) ==> rowid in least && least[rowid] <= d
    requires !Holds(b, rowid) ==> forall e :: e in b ==> e.distance <= d
    ensures TopBag(b, Record(least, rowid, d))
    ensures HoldsAll(b, least) && Holds(b, rowid) ==> HoldsAll(b, Record(least, rowid, d))
  {
  }

  lemma OfferKeepsTopBag(s: seq<Candidate>, cap: nat, least: Least, rowid: int, d: real)
    requires 1 <= cap && TopOf(s, cap, least)
    ensures TopBag(multiset(Offer(s, cap, rowid, d)), Record(least, rowid, d))
    ensures |Offer(s, cap, rowid, d)| < cap ==>
              HoldsAll(multiset(Offer(s, cap, rowid, d)), Record(least, rowid, d))
  {
    var b := multiset(s);
    OfferBag(s, cap, rowid, d);
    IndexOfHolds(s, rowid);
    var i := IndexOf(s, rowid);
    if i < |s| {
      assert s[i] in b;
      if d < s[i].distance {
        ImproveKeepsTop(b, least, s[i], d);
      } else {
        RefuseKeepsTop(b, least, rowid, d);
      }
    } else if |s| < cap {
      AddKeepsTop(b, least, Candidate(rowid, d, false, false));
    } else {
      WorstIsLast(s);
      if d < s[|s| - 1].distance {
        EvictKeepsTop(b, least, s[|s| - 1], Candidate(rowid, d, false, false));
      } else {
        RefuseKeepsTop(b, least, rowid, d);
      }
    }
  }

  lemma WorstIsLast(s: seq<Candidate>)
    requires Sorted(s) && s != []
    ensures forall e :: e in multiset(s) ==> e.distance <= s[|s| - 1].distance
    ensures s[|s| - 1] in multiset(s)
  {
    assert forall e :: e in multiset(s) ==> e in s;
  }

  /** The refinement step: offering a row and recording it keeps `TopOf`. */
  lemma OfferKeepsTop(s: seq<Candidate>, cap: nat, least: Least, rowid: int, d: real)
    requires 1 <= cap && TopOf(s, cap, least)
    ensures TopOf(Offer(s, cap, rowid, d), cap, Record(least, rowid, d))
  {
    OfferKeepsTopBag(s, cap, least, rowid, d);
    OfferSorted(s, cap, rowid, d);
  }

  /** An offer keeps rows distinct, whatever was offered before. */
  lemma OfferDistinct(s: seq<Candidate>, cap: nat, rowid: int, d: real)
    requires 1 <= cap && |s| <= cap && Sorted(s) && Distinct(multiset(s))
    ensures Distinct(multiset(Offer(s, cap, rowid, d)))
  {
    OfferBag(s, cap, rowid, d);
    IndexOfHolds(s, rowid);
    var b := multiset(s);
    var i := IndexOf(s, rowid);
    if i < |s| {
      DistinctAfter(b, s[i], s[i].(distance := d));
    } else {
      DistinctAfter(b, if |s| < cap then Candidate(rowid, d, false, false) else s[|s| - 1],
                    Candidate(rowid, d, false, false));
    }
  }

  // ---- whole histories -------------------------------------------------------

  datatype Bid = Bid(rowid: int, distance: real)

  function OfferAll(cap: nat, offers: seq<Bid>): (r: seq<Candidate>)
    requires 1 <= cap
    ensures |r| <= cap
  {
    if offers == [] then [] else
      var n := |offers| - 1;
      Offer(OfferAll(cap, offers[..n]), cap, offers[n].rowid, offers[n].distance)
  }

  function LeastOf(offers: seq<Bid>): (r: Least) {
    if offers == [] then map[] else
      var n := |offers| - 1;
      Record(LeastOf(offers[..n]), offers[n].rowid, offers[n].distance)
  }

  /** `LeastOf` is the minimum over the history, row by row. */
  lemma {:induction false} LeastOfIsMinimum(offers: seq<Bid>)
    ensures forall q :: q in LeastOf(offers) <==> exists k :: 0 <= k < |offers| && offers[k].rowid == q
    ensures forall k :: 0 <= k < |offers| ==> LeastOf(offers)[offers[k].rowid] <= offers[k].distance
    ensures forall q :: q in LeastOf(offers) ==> Bid(q, LeastOf(offers)[q]) in offers
  {
    if offers != [] {
      var n := |offers| - 1;
      LeastOfIsMinimum(offers[..n]);
      assert offers == offers[..n] + [offers[n]];
      forall q
        ensures q in LeastOf(offers) <==> exists k :: 0 <= k < |offers| && offers[k].rowid == q
      {
        if q in LeastOf(offers[..n]) {
          var k :| 0 <= k < |offers[..n]| && offers[..n][k].rowid == q;
          assert offers[k].rowid == q;
        }
        if k :| 0 <= k < |offers| && offers[k].rowid == q {
          if k < n {
            assert offers[..n][k].rowid == q;
          }
        }
      }
      forall k | 0 <= k < |offers|
        ensures LeastOf(offers)[offers[k].rowid] <= offers[k].distance
      {
        if k < n {
          assert offers[..n][k] == offers[k];
        }
      }
    }
  }

  /** After any offer sequence the list is the top `cap` of the whole history. */
  lemma {:induction false} ListIsTopOfHistory(cap: nat, offers: seq<Bid>)
    requires 1 <= cap
    ensures TopOf(OfferAll(cap, offers), cap, LeastOf(offers))
  {
    if offers != [] {
      var n := |offers| - 1;
      ListIsTopOfHistory(cap, offers[..n]);
      OfferKeepsTop(OfferAll(cap, offers[..n]), cap, LeastOf(offers[..n]), offers[n].rowid, offers[n].distance);
    }
  }

  // ---- the list itself ---------------------------------------------------------

  class CandidateList {
    const capacity: nat
    const items: array<Candidate>
    var count: nat

    ghost predicate Valid()
      reads this, items
    {
      1 <= capacity == items.Length && count <= capacity && Sorted(Contents())
    }

    ghost function Contents(): (s: seq<Candidate>)
      requires count <= items.Length
      reads this, items
    {
      items[..count]
    }

    constructor (capacity: nat)
      requires 1 <= capacity
      ensures Valid() && fresh(items) && this.capacity == capacity && Contents() == []
    {
      this.capacity := capacity;
      items := new Candidate[capacity](_ => Candidate(0, 0.0, false, false));
      count := 0;
    }

    /** First index with `rowid`, or `count`. */
    method Find(rowid: int) returns (i: nat)
      requires Valid()
      ensures i == IndexOf(Contents(), rowid)
    {
      i := 0;
      while i < count && items[i].rowid != rowid
        invariant i <= count
        invariant forall k :: 0 <= k < i ==> items[k].rowid != rowid
      {
        i := i + 1;
      }
      IndexOfIsFirst(Contents(), rowid);
    }

    /** Slide the entry at `i`, whose distance has dropped to `d`, to its place. */
    method Resort(i: nat, d: real)
      requires i < count <= items.Length && d < items[i].distance
      modifies items
      ensures Contents() == Improve(old(Contents()), i, d)
    {
      hide Improve;
      ghost var was := Contents();
      var tmp := items[i].(distance := d);
      var j := i - 1;
      while j >= 0 && items[j].distance > tmp.distance
        invariant -1 <= j < i
        invariant forall k :: 0 <= k < count && k != j + 1 ==> items[k] == was[if j + 1 < k <= i then k - 1 else k]
        invariant forall k :: j < k < i ==> was[k].distance > d
      {
        items[j + 1] := items[j];
        j := j - 1;
      }
      items[j + 1] := tmp;
      Resorted(was, i, d, Contents(), j + 1);
    }

    /** Binary search for the leftmost place. */
    method InsertionPoint(distance: real) returns (lo: nat)
      requires count <= items.Length && Sorted(Contents())
      ensures lo == LowerBound(Contents(), distance)
    {
      ghost var s := Contents();
      lo := 0;
      var hi := count;
      while lo < hi
        invariant 0 <= lo <= hi <= count
        invariant forall k :: 0 <= k < lo ==> s[k].distance < distance
        invariant forall k :: hi <= k < count ==> s[k].distance >= distance
      {
        var mid := (lo + hi) / 2;
        assert items[mid] == s[mid];
        if items[mid].distance < distance {
          lo := mid + 1;
        } else {
          hi := mid;
        }
      }
      LowerBoundUnique(s, distance, lo);
    }

    /** Offer a row; false exactly when it is discarded. */
    method Insert(rowid: int, distance: real) returns (kept: bool)
      requires Valid()
      modifies this, items
      ensures Valid()
      ensures Contents() == Offer(old(Contents()), capacity, rowid, distance)
      ensures kept
                == (IndexOf(old(Contents()), rowid) < old(count) || Creates(old(Contents()), capacity, rowid, distance))
    {
      ghost var was := Contents();
      var i := Find(rowid);
      if i < count {
        if distance < items[i].distance {
          Resort(i, distance);
          ImproveSorted(was, i, distance);
        }
        return true;
      }
      if count >= capacity {
        if distance >= items[count - 1].distance {
          return false;
        }
        count := count - 1;
        assert Contents() == was[..|was| - 1];
      }
      PlaceSorted(Contents(), Candidate(rowid, distance, false, false));
      InsertNew(rowid, distance);
      return true;
    }

    /** Make room in front of equals and write the new entry. */
    method InsertNew(rowid: int, distance: real)
      requires count < items.Length && Sorted(Contents())
      modifies this, items
      ensures count == old(count) + 1
      ensures Contents() == Place(old(Contents()), Candidate(rowid, distance, false, false))
    {
      ghost var base := Contents();
      var lo := InsertionPoint(distance);
      forall k | lo <= k < count {
        items[k + 1] := items[k];
      }
      items[lo] := Candidate(rowid, distance, false, false);
      count := count + 1;
      PlaceAt(base, Candidate(rowid, distance, false, false), Contents(), lo);
    }
  }
}
