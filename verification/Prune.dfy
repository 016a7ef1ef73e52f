/** Alpha-pruning: choosing a bounded, diverse neighbour set out of sorted candidates.

    `Greedy` is the simple recursive reading. Both implementations, the one over a
    precomputed distance matrix and the one that loads vectors on demand, select
    exactly what `Greedy` selects. */
module Prune {
  import opened Wrappers
  import opened DiskAnnTables
  import opened Candidates
  import Order

  /** `covers(p, c)`: candidate `c` is redundant once `p` has been picked. */
  type Cover = (nat, nat) -> bool

  function Uncovered(active: seq<nat>, best: nat, covers: Cover): (r: seq<nat>)
    ensures |r| <= |active|
  {
    if active == [] then [] else
      (if covers(best, active[0]) then [] else [active[0]]) + Uncovered(active[1..], best, covers)
  }

  /** Take the first active candidate, drop what it covers, go on while there is room. */
  function Greedy(active: seq<nat>, covers: Cover, room: nat): (picks: seq<nat>)
    ensures |picks| <= room
    decreases room
  {
    if active == [] || room == 0 then [] else
      [active[0]] + Greedy(Uncovered(active[1..], active[0], covers), covers, room - 1)
  }

  ghost predicate Increasing(s: seq<nat>) {
    forall i, j :: 0 <= i < j < |s| ==> s[i] < s[j]
  }

  lemma IncreasingCons(x: nat, s: seq<nat>)
    requires Increasing(s) && forall c :: c in s ==> x < c
    ensures Increasing([x] + s)
  {
    assert forall i :: 0 <= i < |s| ==> s[i] in s;
  }

  lemma IncreasingTail(s: seq<nat>)
    requires Increasing(s) && s != []
    ensures Increasing(s[1..]) && forall c :: c in s[1..] ==> s[0] < c
  {
  }

  // ---- what greedy selection guarantees --------------------------------------------

  lemma {:induction false} UncoveredMembers(active: seq<nat>, best: nat, covers: Cover)
    ensures forall c :: c in Uncovered(active, best, covers) <==> c in active && !covers(best, c)
    ensures Increasing(active) ==> Increasing(Uncovered(active, best, covers))
  {
    if active != [] {
      UncoveredMembers(active[1..], best, covers);
      assert active == [active[0]] + active[1..];
      if Increasing(active) {
        IncreasingTail(active);
        if !covers(best, active[0]) {
          IncreasingCons(active[0], Uncovered(active[1..], best, covers));
        }
      }
    }
  }

  /** Picks are active candidates, in order. */
  lemma {:induction false} GreedyPicksInOrder(active: seq<nat>, covers: Cover, room: nat)
    requires Increasing(active)
    ensures Increasing(Greedy(active, covers, room))
    ensures forall c :: c in Greedy(active, covers, room) ==> c in active
    decreases room
  {
    if active != [] && room != 0 {
      IncreasingTail(active);
      UncoveredMembers(active[1..], active[0], covers);
      var rest := Uncovered(active[1..], active[0], covers);
      GreedyPicksInOrder(rest, covers, room - 1);
      IncreasingCons(active[0], Greedy(rest, covers, room - 1));
    }
  }

  /** No pick is covered by an earlier pick. */
  lemma {:induction false} GreedyIsDiverse(active: seq<nat>, covers: Cover, room: nat)
    requires Increasing(active)
    ensures forall i, j :: 0 <= i < j < |Greedy(active, covers, room)| ==>
              !covers(Greedy(active, covers, room)[i], Greedy(active, covers, room)[j])
    decreases room
  {
    if active != [] && room != 0 {
      IncreasingTail(active);
      UncoveredMembers(active[1..], active[0], covers);
      var rest := Uncovered(active[1..], active[0], covers);
      GreedyPicksInOrder(rest, covers, room - 1);
      GreedyIsDiverse(rest, covers, room - 1);
      var tail := Greedy(rest, covers, room - 1);
      assert forall i :: 0 <= i < |tail| ==> tail[i] in tail;
    }
  }

  /** Unless the limit was reached, everything not picked is covered by a pick in
      front of it. */
  lemma {:induction false} GreedyIsComplete(active: seq<nat>, covers: Cover, room: nat, c: nat)
    requires Increasing(active) && |Greedy(active, covers, room)| < room
    requires c in active && c !in Greedy(active, covers, room)
    ensures exists p :: p in Greedy(active, covers, room) && p < c && covers(p, c)
    decreases room
  {
    var best := active[0];
    IncreasingTail(active);
    UncoveredMembers(active[1..], best, covers);
    var rest := Uncovered(active[1..], best, covers);
    assert best in Greedy(active, covers, room);
    if c in rest {
      GreedyIsComplete(rest, covers, room - 1, c);
      var p :| p in Greedy(rest, covers, room - 1) && p < c && covers(p, c);
      assert p in Greedy(active, covers, room);
    }
  }

  /** Greedy depends only on how covering behaves among the active candidates. */
  lemma {:induction false} GreedyCongruence(active: seq<nat>, f: Cover, g: Cover, room: nat)
    requires forall a, b :: a in active && b in active ==> f(a, b) == g(a, b)
    ensures Greedy(active, f, room) == Greedy(active, g, room)
    decreases room
  {
    if active != [] && room != 0 {
      UncoveredCongruence(active[1..], active[0], f, g);
      UncoveredMembers(active[1..], active[0], f);
      GreedyCongruence(Uncovered(active[1..], active[0], f), f, g, room - 1);
    }
  }

  lemma UncoveredCongruence(active: seq<nat>, best: nat, f: Cover, g: Cover)
    requires forall b :: b in active ==> f(best, b) == g(best, b)
    ensures Uncovered(active, best, f) == Uncovered(active, best, g)
  {
  }

  function Range(n: nat): (r: seq<nat>)
    ensures |r| == n && forall i :: 0 <= i < n ==> r[i] == i
  {
    if n == 0 then [] else Range(n - 1) + [n - 1]
  }

  // ---- active flags as a list ---------------------------------------------------------

  /** Indices from `from` on whose flag is set, in order. */
  function Active(flags: seq<bool>, from: nat): (r: seq<nat>)
    requires from <= |flags|
    ensures |r| <= |flags| - from
    decreases |flags| - from
  {
    if from == |flags| then [] else
      (if flags[from] then [from] else []) + Active(flags, from + 1)
  }

  lemma {:induction false} ActiveSkips(flags: seq<bool>, from: nat, best: nat)
    requires from <= best < |flags| && flags[best] && forall i :: from <= i < best ==> !flags[i]
    ensures Active(flags, from) == [best] + Active(flags, best + 1)
    decreases best - from
  {
    if from < best {
      ActiveSkips(flags, from + 1, best);
      assert [] + Active(flags, from + 1) == Active(flags, from + 1);
    }
  }

  lemma {:induction false} ActiveCleared(flags: seq<bool>, after: seq<bool>, from: nat, best: nat, covers: Cover)
    requires |after| == |flags| && from <= |flags|
    requires forall i :: from <= i < |flags| ==> after[i] == (flags[i] && !covers(best, i))
    ensures Active(after, from) == Uncovered(Active(flags, from), best, covers)
    decreases |flags| - from
  {
    if from < |flags| {
      ActiveCleared(flags, after, from + 1, best, covers);
      var rest := Active(flags, from + 1);
      assert ([from] + rest)[1..] == rest && [] + rest == rest;
    }
  }

  lemma {:induction false} AllActive(flags: seq<bool>, from: nat)
    requires from <= |flags| && forall i :: 0 <= i < |flags| ==> flags[i]
    ensures |Active(flags, from)| == |flags| - from
    ensures forall i :: 0 <= i < |flags| - from ==> Active(flags, from)[i] == from + i
    decreases |flags| - from
  {
    if from < |flags| {
      AllActive(flags, from + 1);
    }
  }

  /** Selection in progress: what `Greedy` still has to pick comes from the set flags. */
  ghost predicate Selecting(n: nat, covers: Cover, limit: nat, flags: seq<bool>, picks: seq<nat>, round: nat) {
    && |flags| == n && |picks| <= limit && round <= n
    && |Active(flags, 0)| <= n - round
    && Greedy(Range(n), covers, limit) == picks + Greedy(Active(flags, 0), covers, limit - |picks|)
  }

  lemma SelectingStarts(n: nat, covers: Cover, limit: nat, flags: seq<bool>)
    requires |flags| == n && forall i :: 0 <= i < n ==> flags[i]
    ensures Selecting(n, covers, limit, flags, [], 0)
  {
    AllActive(flags, 0);
    assert Active(flags, 0) == Range(n);
  }

  lemma SelectingContinues(n: nat, covers: Cover, limit: nat, flags: seq<bool>, after: seq<bool>, picks: seq<nat>,
                           round: nat, best: nat)
    requires Selecting(n, covers, limit, flags, picks, round) && |picks| < limit && round < n
    requires best < n == |after| && flags[best] && (forall i :: 0 <= i < best ==> !flags[i])
    requires forall i :: 0 <= i < n ==> after[i] == (flags[i] && i != best && !covers(best, i))
    ensures Selecting(n, covers, limit, after, picks + [best], round + 1)
  {
    RoundIsGreedy(flags, after, best, covers, limit - |picks|);
  }

  lemma SelectingEnds(n: nat, covers: Cover, limit: nat, flags: seq<bool>, picks: seq<nat>, round: nat)
    requires Selecting(n, covers, limit, flags, picks, round)
    requires round == n || |picks| == limit || forall i :: 0 <= i < n ==> !flags[i]
    ensures picks == Greedy(Range(n), covers, limit)
  {
    if forall i :: 0 <= i < n ==> !flags[i] {
      ActiveDead(flags, 0, n);
    }
  }

  /** One round on the flags is one unfolding of `Greedy`. */
  lemma RoundIsGreedy(flags: seq<bool>, after: seq<bool>, best: nat, covers: Cover, room: nat)
    requires best < |flags| == |after| && flags[best] && (forall i :: 0 <= i < best ==> !flags[i]) && room > 0
    requires forall i :: 0 <= i < |flags| ==> after[i] == (flags[i] && i != best && !covers(best, i))
    ensures Greedy(Active(flags, 0), covers, room) == [best] + Greedy(Active(after, 0), covers, room - 1)
    ensures |Active(after, 0)| < |Active(flags, 0)|
  {
    ActiveSkips(flags, 0, best);
    ActiveCleared(flags, after, best + 1, best, covers);
    ActiveDead(after, 0, best + 1);
  }

  lemma {:induction false} ActiveDead(flags: seq<bool>, from: nat, to: nat)
    requires from <= to && to <= |flags| && (forall i :: from <= i < to ==> !flags[i])
    ensures Active(flags, from) == Active(flags, to)
    decreases |flags| - from
  {
    if from < to {
      ActiveDead(flags, from + 1, to);
    }
  }

  method FirstActive(active: array<bool>) returns (best: nat)
    ensures best <= active.Length
    ensures forall i :: 0 <= i < best ==> !active[i]
    ensures best < active.Length ==> active[best]
  {
    best := 0;
    while best < active.Length && !active[best]
      invariant best <= active.Length
      invariant forall i :: 0 <= i < best ==> !active[i]
    {
      best := best + 1;
    }
  }

  // ---- selection over a distance matrix -------------------------------------------------

  /** Row-major cell of an n by n matrix. */
  function Cell(n: nat, i: nat, j: nat): (k: nat)
    requires i < n && j < n
    ensures k < n * n
  {
    CellBound(n, i, j);
    i * n + j
  }

  lemma CellBound(n: nat, i: nat, j: nat)
    requires i < n && j < n
    ensures 0 <= i * n + j < n * n
  {
    assert (i + 1) * n <= n * n;
  }

  function MatrixCover(inter: seq<real>, dist: seq<real>, alpha: real): (covers: Cover)
    requires |inter| == |dist| * |dist|
  {
    (p: nat, c: nat) => p < |dist| && c < |dist| && alpha * inter[Cell(|dist|, p, c)] <= dist[c]
  }

  /** Deactivate the pick and everything it covers. */
  method CoverRound(inter: seq<real>, dist: seq<real>, alpha: real, active: array<bool>, best: nat)
    requires |inter| == |dist| * |dist| && best < active.Length == |dist|
    modifies active
    ensures forall k :: 0 <= k < active.Length ==>
              active[k] == (old(active[k]) && k != best && !MatrixCover(inter, dist, alpha)(best, k))
  {
    active[best] := false;
    for i := 0 to active.Length
      invariant forall k :: 0 <= k < i ==>
                  active[k] == (old(active[k]) && k != best && !MatrixCover(inter, dist, alpha)(best, k))
      invariant forall k :: i <= k < active.Length ==> active[k] == (old(active[k]) && k != best)
    {
      if active[i] {
        if alpha * inter[Cell(|dist|, best, i)] <= dist[i] {
          active[i] := false;
        }
      }
    }
  }

  method PruneSelect(inter: seq<real>, dist: seq<real>, alpha: real, maxNeighbors: nat, selected: array<bool>)
    returns (count: nat)
    requires |inter| == |dist| * |dist| && selected.Length == |dist|
    modifies selected
    ensures var picks := Greedy(Range(|dist|), MatrixCover(inter, dist, alpha), maxNeighbors);
            && count == |picks|
            && forall i :: 0 <= i < |dist| ==> (selected[i] <==> i in picks)
  {
    var n := |dist|;
    ghost var covers := MatrixCover(inter, dist, alpha);
    var active := new bool[n](_ => true);
    for i := 0 to n
      invariant forall k :: 0 <= k < n ==> active[k]
      invariant forall k :: 0 <= k < i ==> !selected[k]
    {
      selected[i] := false;
    }
    ghost var picks: seq<nat> := [];
    SelectingStarts(n, covers, maxNeighbors, active[..]);
    count := 0;
    var round := 0;
    while round < n && count < maxNeighbors
      invariant count == |picks| && Selecting(n, covers, maxNeighbors, active[..], picks, round)
      invariant forall i :: 0 <= i < n ==> (selected[i] <==> i in picks)
    {
      var best := FirstActive(active);
      if best == n {
        break;
      }
      ghost var flags := active[..];
      selected[best] := true;
      count := count + 1;
      CoverRound(inter, dist, alpha, active, best);
      SelectingContinues(n, covers, maxNeighbors, flags, active[..], picks, round, best);
      picks := picks + [best];
      round := round + 1;
    }
    SelectingEnds(n, covers, maxNeighbors, active[..], picks, round);
  }

  // ---- selection that loads vectors on demand ----------------------------------------------

  /** First entry for `p` overwritten by the last, and the list one shorter. */
  function RemoveSelf(s: seq<Bid>, p: int): (r: seq<Bid>)
    ensures |r| <= |s|
  {
    var i := RowIndex(s, p);
    if i < |s| then s[i := s[|s| - 1]][..|s| - 1] else s
  }

  function RowIndex(s: seq<Bid>, p: int): (i: nat)
    ensures i <= |s|
    ensures i < |s| ==> s[i].rowid == p
    ensures forall k :: 0 <= k < i ==> s[k].rowid != p
  {
    if s == [] then 0 else if s[0].rowid == p then 0 else 1 + RowIndex(s[1..], p)
  }

  lemma RowIndexIs(s: seq<Bid>, p: int, i: nat)
    requires i < |s| && s[i].rowid == p && forall k :: 0 <= k < i ==> s[k].rowid != p
    ensures RowIndex(s, p) == i
  {
    assert RowIndex(s, p) <= i;
  }

  ghost predicate Ascending(s: seq<Bid>) {
    forall i, j :: 0 <= i < j < |s| ==> s[i].distance <= s[j].distance
  }

  ghost predicate DistinctRows(s: seq<Bid>) {
    forall i, j :: 0 <= i < j < |s| ==> s[i].rowid != s[j].rowid
  }

  predicate NoFarther(a: Bid, b: Bid) {
    a.distance <= b.distance
  }

  /** Where the shifting loop puts `x`. */
  lemma {:induction false} InsertAt(s: seq<Bid>, x: Bid, j: nat, r: seq<Bid>)
    requires j <= |s| && |r| == |s| + 1
    requires j > 0 ==> s[j - 1].distance <= x.distance
    requires forall k :: j <= k < |s| ==> s[k].distance > x.distance
    requires forall k :: 0 <= k < j ==> r[k] == s[k]
    requires r[j] == x
    requires forall k :: j <= k < |s| ==> r[k + 1] == s[k]
    ensures r == Order.Insert(s, x, NoFarther)
  {
    if j < |s| {
      var n := |s| - 1;
      InsertAt(s[..n], x, j, r[..n + 1]);
      assert r == r[..n + 1] + [s[n]];
    } else {
      assert r == s + [x];
    }
  }

  /** Insertion sort, front to back. */
  function StableSort(s: seq<Bid>): (r: seq<Bid>) {
    Order.Sort(s, NoFarther)
  }

  lemma StableSortSorts(s: seq<Bid>)
    ensures Ascending(StableSort(s)) && multiset(StableSort(s)) == multiset(s)
  {
    Order.SortSorts(s, NoFarther);
    var r := StableSort(s);
    forall i, j | 0 <= i < j < |r|
      ensures r[i].distance <= r[j].distance
    {
      assert NoFarther(r[i], r[j]);
    }
  }

  /** Covering among sorted candidates when vectors are read from the table; an
      unreadable vector covers nothing and is covered by nothing. */
  function RowCover(c: seq<Bid>, vectors: map<int, Vec>, m: Metric, alpha: real): (covers: Cover) {
    (p: nat, i: nat) =>
      p < |c| && i < |c| && c[p].rowid in vectors && c[i].rowid in vectors
      && alpha * m.exact(vectors[c[p].rowid], vectors[c[i].rowid]) <= c[i].distance
  }

  function RowsOf(c: seq<Bid>, picks: seq<nat>): (rows: seq<int>)
    requires forall i :: 0 <= i < |picks| ==> picks[i] < |c|
    ensures |rows| == |picks| && forall i :: 0 <= i < |picks| ==> rows[i] == c[picks[i]].rowid
  {
    if picks == [] then [] else [c[picks[0]].rowid] + RowsOf(c, picks[1..])
  }

  lemma GreedyStaysInRange(n: nat, covers: Cover, room: nat)
    ensures forall i :: 0 <= i < |Greedy(Range(n), covers, room)| ==> Greedy(Range(n), covers, room)[i] < n
  {
    GreedyPicksInOrder(Range(n), covers, room);
    assert forall i :: 0 <= i < |Greedy(Range(n), covers, room)| ==> Greedy(Range(n), covers, room)[i] in Range(n);
  }

  /** The neighbours chosen for row `p` out of `cands`. */
  function ChosenNeighbours(cands: seq<Bid>, p: int, vectors: map<int, Vec>, m: Metric, alpha: real,
                            maxNeighbors: nat): (rows: seq<int>)
    ensures |rows| <= maxNeighbors
  {
    var c := StableSort(RemoveSelf(cands, p));
    GreedyStaysInRange(|c|, RowCover(c, vectors, m, alpha), maxNeighbors);
    RowsOf(c, Greedy(Range(|c|), RowCover(c, vectors, m, alpha), maxNeighbors))
  }

  lemma RemoveSelfRemoves(s: seq<Bid>, p: int)
    requires DistinctRows(s)
    ensures DistinctRows(RemoveSelf(s, p))
    ensures forall b :: b in RemoveSelf(s, p) <==> b in s && b.rowid != p
  {
    var i := RowIndex(s, p);
    var r := RemoveSelf(s, p);
    if i < |s| {
      var n := |s| - 1;
      forall b | b in s && b.rowid != p
        ensures b in r
      {
        var k :| 0 <= k < |s| && s[k] == b;
        assert r[if k == n then i else k] == b;
      }
    }
  }

  lemma SortKeepsRowsDistinct(s: seq<Bid>, r: seq<Bid>)
    requires DistinctRows(s) && multiset(r) == multiset(s)
    ensures DistinctRows(r)
  {
    forall i, j | 0 <= i < j < |r|
      ensures r[i].rowid != r[j].rowid
    {
      assert r[i] in multiset(s) && r[j] in multiset(s);
      if r[i] == r[j] {
        SplitTwice(r, i, j);
        DistinctOnce(s, r[i]);
      }
    }
  }

  lemma SplitTwice(r: seq<Bid>, i: nat, j: nat)
    requires i < j < |r| && r[i] == r[j]
    ensures multiset(r)[r[i]] >= 2
  {
    assert r == r[..i] + [r[i]] + r[i + 1..j] + [r[j]] + r[j + 1..];
  }

  lemma {:induction false} DistinctOnce(s: seq<Bid>, b: Bid)
    requires DistinctRows(s)
    ensures multiset(s)[b] <= 1
  {
    if s != [] {
      assert s == [s[0]] + s[1..];
      DistinctOnce(s[1..], b);
    }
  }

  lemma PreparedCandidates(cands: seq<Bid>, p: int)
    requires DistinctRows(cands)
    ensures var c := StableSort(RemoveSelf(cands, p));
            && Ascending(c) && DistinctRows(c)
            && forall i :: 0 <= i < |c| ==> c[i] in cands && c[i].rowid != p
  {
    var s := RemoveSelf(cands, p);
    var c := StableSort(s);
    RemoveSelfRemoves(cands, p);
    StableSortSorts(s);
    SortKeepsRowsDistinct(s, c);
    forall i | 0 <= i < |c|
      ensures c[i] in s
    {
      assert c[i] in multiset(s);
    }
  }

  /** Row `q` makes candidate `b` redundant: both vectors can be read and, stretched by `alpha`,
      `b` is no farther from `q` than from the node itself. */
  ghost predicate Covers(q: int, b: Bid, vectors: map<int, Vec>, m: Metric, alpha: real) {
    q in vectors && b.rowid in vectors && alpha * m.exact(vectors[q], vectors[b.rowid]) <= b.distance
  }

  lemma RangeHolds(n: nat, i: nat)
    requires i < n
    ensures i in Range(n) && Increasing(Range(n))
  {
    assert Range(n)[i] == i;
  }

  lemma PreparedHolds(cands: seq<Bid>, p: int, b: Bid) returns (i: nat)
    requires DistinctRows(cands) && b in cands && b.rowid != p
    ensures var c := StableSort(RemoveSelf(cands, p)); i < |c| && c[i] == b
  {
    RemoveSelfRemoves(cands, p);
    StableSortSorts(RemoveSelf(cands, p));
    var c := StableSort(RemoveSelf(cands, p));
    assert b in multiset(RemoveSelf(cands, p));
    i :| 0 <= i < |c| && c[i] == b;
  }

  /** Unless there is no room or nobody else, the first row chosen is a nearest candidate. */
  lemma NearestIsChosen(cands: seq<Bid>, p: int, vectors: map<int, Vec>, m: Metric, alpha: real, room: nat, b: Bid)
    returns (first: Bid)
    requires DistinctRows(cands) && room > 0 && b in cands && b.rowid != p
    ensures var rows := ChosenNeighbours(cands, p, vectors, m, alpha, room);
            && rows != [] && first in cands && first.rowid == rows[0]
            && forall x :: x in cands && x.rowid != p ==> first.distance <= x.distance
  {
    PreparedCandidates(cands, p);
    var c := StableSort(RemoveSelf(cands, p));
    var k := PreparedHolds(cands, p, b);
    RangeHolds(|c|, 0);
    GreedyStaysInRange(|c|, RowCover(c, vectors, m, alpha), room);
    first := c[0];
    forall x | x in cands && x.rowid != p
      ensures first.distance <= x.distance
    {
      var i := PreparedHolds(cands, p, x);
    }
  }

  lemma PickCovers(c: seq<Bid>, vectors: map<int, Vec>, m: Metric, alpha: real, room: nat, i: nat) returns (q: nat)
    requires var picks := Greedy(Range(|c|), RowCover(c, vectors, m, alpha), room);
             i < |c| && |picks| < room && i !in picks
    ensures q < |c| && q in Greedy(Range(|c|), RowCover(c, vectors, m, alpha), room)
    ensures Covers(c[q].rowid, c[i], vectors, m, alpha)
  {
    hide Greedy, Range;
    var covers := RowCover(c, vectors, m, alpha);
    RangeHolds(|c|, i);
    GreedyIsComplete(Range(|c|), covers, room, i);
    q :| q in Greedy(Range(|c|), covers, room) && q < i && covers(q, i);
  }

  lemma RowsOfHolds(c: seq<Bid>, picks: seq<nat>, i: nat)
    requires forall k :: 0 <= k < |picks| ==> picks[k] < |c|
    requires i in picks
    ensures c[i].rowid in RowsOf(c, picks)
  {
    var k :| 0 <= k < |picks| && picks[k] == i;
    assert RowsOf(c, picks)[k] == c[i].rowid;
  }

  /** While slots are left, every candidate passed over is covered by a chosen row. */
  lemma PassedOverIsCovered(cands: seq<Bid>, p: int, vectors: map<int, Vec>, m: Metric, alpha: real, room: nat, b: Bid)
    requires DistinctRows(cands) && b in cands && b.rowid != p
    requires |ChosenNeighbours(cands, p, vectors, m, alpha, room)| < room
    requires b.rowid !in ChosenNeighbours(cands, p, vectors, m, alpha, room)
    ensures exists q :: q in ChosenNeighbours(cands, p, vectors, m, alpha, room) && Covers(q, b, vectors, m, alpha)
  {
    hide Greedy, Range, RowCover, RowsOf, StableSort, RemoveSelf, Covers;
    var c := StableSort(RemoveSelf(cands, p));
    var covers := RowCover(c, vectors, m, alpha);
    GreedyStaysInRange(|c|, covers, room);
    var picks := Greedy(Range(|c|), covers, room);
    var i := PreparedHolds(cands, p, b);
    if i in picks {
      RowsOfHolds(c, picks, i);
      assert false;
    }
    var q := PickCovers(c, vectors, m, alpha, room, i);
    RowsOfHolds(c, picks, q);
  }

  /** No chosen row is covered by one chosen before it, and they come in order of distance. */
  lemma ChosenAreDiverse(cands: seq<Bid>, p: int, vectors: map<int, Vec>, m: Metric, alpha: real, room: nat, i: nat,
                         j: nat)
    returns (a: Bid, b: Bid)
    requires DistinctRows(cands) && i < j < |ChosenNeighbours(cands, p, vectors, m, alpha, room)|
    ensures var rows := ChosenNeighbours(cands, p, vectors, m, alpha, room);
            && a in cands && b in cands && a.rowid == rows[i] && b.rowid == rows[j]
            && a.distance <= b.distance && !Covers(rows[i], b, vectors, m, alpha)
  {
    PreparedCandidates(cands, p);
    var c := StableSort(RemoveSelf(cands, p));
    var covers := RowCover(c, vectors, m, alpha);
    GreedyStaysInRange(|c|, covers, room);
    assert Increasing(Range(|c|));
    GreedyIsDiverse(Range(|c|), covers, room);
    GreedyPicksInOrder(Range(|c|), covers, room);
    var picks := Greedy(Range(|c|), covers, room);
    a, b := c[picks[i]], c[picks[j]];
    assert !covers(picks[i], picks[j]);
  }

  /** The chosen rows are candidates other than `p`, each once. */
  lemma ChosenAreCandidates(cands: seq<Bid>, p: int, vectors: map<int, Vec>, m: Metric, alpha: real, maxNeighbors: nat)
    requires DistinctRows(cands)
    ensures var rows := ChosenNeighbours(cands, p, vectors, m, alpha, maxNeighbors);
            && (forall i :: 0 <= i < |rows| ==> rows[i] != p && exists b :: b in cands && b.rowid == rows[i])
            && (forall i, j :: 0 <= i < j < |rows| ==> rows[i] != rows[j])
  {
    var c := StableSort(RemoveSelf(cands, p));
    PreparedCandidates(cands, p);
    GreedyStaysInRange(|c|, RowCover(c, vectors, m, alpha), maxNeighbors);
    GreedyPicksInOrder(Range(|c|), RowCover(c, vectors, m, alpha), maxNeighbors);
  }

  /** When every candidate's vector can be read, choosing on demand is selecting over
      the matrix of exact distances. */
  lemma OnDemandIsMatrix(c: seq<Bid>, vectors: map<int, Vec>, m: Metric, alpha: real, inter: seq<real>,
                         dist: seq<real>, room: nat)
    requires |dist| == |c| && |inter| == |c| * |c|
    requires forall i :: 0 <= i < |c| ==> c[i].rowid in vectors && dist[i] == c[i].distance
    requires forall i, j :: 0 <= i < |c| && 0 <= j < |c| ==>
               inter[Cell(|c|, i, j)] == m.exact(vectors[c[i].rowid], vectors[c[j].rowid])
    ensures Greedy(Range(|c|), RowCover(c, vectors, m, alpha), room)
              == Greedy(Range(|c|), MatrixCover(inter, dist, alpha), room)
  {
    GreedyCongruence(Range(|c|), RowCover(c, vectors, m, alpha), MatrixCover(inter, dist, alpha), room);
  }

  // ---- RobustPrune on the caller's two parallel arrays ----------------------------------

  ghost function Pairs(rowids: seq<int>, dists: seq<real>): (s: seq<Bid>)
    requires |rowids| == |dists|
  {
    seq(|rowids|, i requires 0 <= i < |rowids| => Bid(rowids[i], dists[i]))
  }

  ghost function Loaded(rowids: array<int>, dists: array<real>, n: nat): (s: seq<Bid>)
    requires n <= rowids.Length && n <= dists.Length
    reads rowids, dists
  {
    Pairs(rowids[..n], dists[..n])
  }

  method DropSelf(rowids: array<int>, dists: array<real>, n: nat, p: int) returns (n': nat)
    requires n <= rowids.Length && n <= dists.Length
    modifies rowids, dists
    ensures n' <= n && Loaded(rowids, dists, n') == RemoveSelf(old(Loaded(rowids, dists, n)), p)
  {
    ghost var s := Loaded(rowids, dists, n);
    var i := 0;
    while i < n && rowids[i] != p
      invariant i <= n
      invariant forall k :: 0 <= k < i ==> s[k].rowid != p
    {
      i := i + 1;
    }
    if i == n {
      return n;
    }
    rowids[i] := rowids[n - 1];
    dists[i] := dists[n - 1];
    RowIndexIs(s, p, i);
    return n - 1;
  }

  /** Shift entries `from..to` of an array one place right. */
  ghost predicate Shifted<T>(was: seq<T>, now: seq<T>, from: nat, to: nat) {
    && from <= to < |was| == |now|
    && (forall k :: 0 <= k < from || to < k < |was| ==> now[k] == was[k])
    && (forall k :: from <= k < to ==> now[k + 1] == was[k])
  }

  /** Slide the entries larger than the one at `i` right; `j` is the gap that opens. */
  method Slide(rowids: array<int>, dists: array<real>, i: nat) returns (j: nat)
    requires i < rowids.Length && i < dists.Length
    modifies rowids, dists
    ensures j <= i && Shifted(old(rowids[..]), rowids[..], j, i) && Shifted(old(dists[..]), dists[..], j, i)
    ensures j > 0 ==> old(dists[j - 1]) <= old(dists[i])
    ensures forall k :: j <= k < i ==> old(dists[..])[k] > old(dists[i])
  {
    ghost var r0, d0 := rowids[..], dists[..];
    var tmpDist := dists[i];
    j := i;
    while j > 0 && dists[j - 1] > tmpDist
      invariant j <= i
      invariant Shifted(r0, rowids[..], j, i) && Shifted(d0, dists[..], j, i)
      invariant forall k :: j <= k < i ==> d0[k] > tmpDist
    {
      ghost var r1, d1 := rowids[..], dists[..];
      dists[j] := dists[j - 1];
      rowids[j] := rowids[j - 1];
      ShiftMore(r0, r1, rowids[..], j, i);
      ShiftMore(d0, d1, dists[..], j, i);
      j := j - 1;
    }
  }

  lemma ShiftMore<T>(was: seq<T>, now: seq<T>, next: seq<T>, from: nat, to: nat)
    requires Shifted(was, now, from, to) && from > 0 && next == now[from := now[from - 1]]
    ensures Shifted(was, next, from - 1, to)
  {
  }

  lemma SlideThenInsert(r0: seq<int>, r: seq<int>, d0: seq<real>, d: seq<real>, j: nat, i: nat)
    requires Shifted(r0, r, j, i) && Shifted(d0, d, j, i)
    requires (j > 0 ==> d0[j - 1] <= d0[i]) && forall k :: j <= k < i ==> d0[k] > d0[i]
    ensures Pairs(r[j := r0[i]][..i + 1], d[j := d0[i]][..i + 1]) ==
              Order.Insert(Pairs(r0[..i], d0[..i]), Bid(r0[i], d0[i]), NoFarther)
  {
    var s := Pairs(r0[..i], d0[..i]);
    var after := Pairs(r[j := r0[i]][..i + 1], d[j := d0[i]][..i + 1]);
    InsertAt(s, Bid(r0[i], d0[i]), j, after);
  }

  /** The sorted prefix grows by one: slide larger entries right, drop the new one in. */
  method InsertStep(rowids: array<int>, dists: array<real>, i: nat)
    requires i < rowids.Length && i < dists.Length
    modifies rowids, dists
    ensures Loaded(rowids, dists, i + 1) ==
              Order.Insert(old(Loaded(rowids, dists, i)), Bid(old(rowids[i]), old(dists[i])), NoFarther)
    ensures forall k :: i < k < rowids.Length ==> rowids[k] == old(rowids[k])
    ensures forall k :: i < k < dists.Length ==> dists[k] == old(dists[k])
  {
    ghost var r0, d0 := rowids[..], dists[..];
    var tmpDist := dists[i];
    var tmpRowid := rowids[i];
    var j := Slide(rowids, dists, i);
    SlideThenInsert(r0, rowids[..], d0, dists[..], j, i);
    ghost var r1, d1 := rowids[..], dists[..];
    dists[j] := tmpDist;
    rowids[j] := tmpRowid;
    assert rowids[..] == r1[j := tmpRowid] && dists[..] == d1[j := tmpDist];
    assert rowids[..i + 1] == rowids[..][..i + 1] && dists[..i + 1] == dists[..][..i + 1];
    assert r0[..i] == old(rowids[..i]) && d0[..i] == old(dists[..i]);
    assert forall k :: i < k < rowids.Length ==> rowids[k] == r1[k];
    assert forall k :: i < k < dists.Length ==> dists[k] == d1[k];
  }

  method SortPairs(rowids: array<int>, dists: array<real>, n: nat)
    requires n <= rowids.Length && n <= dists.Length
    modifies rowids, dists
    ensures Loaded(rowids, dists, n) == StableSort(old(Loaded(rowids, dists, n)))
  {
    ghost var s := Loaded(rowids, dists, n);
    if n == 0 {
      return;
    }
    assert s[..1][..0] == [];
    assert StableSort(s[..1]) == [s[0]];
    var i := 1;
    while i < n
      invariant 1 <= i <= n
      invariant Loaded(rowids, dists, i) == StableSort(s[..i])
      invariant forall k :: i <= k < n ==> rowids[k] == s[k].rowid && dists[k] == s[k].distance
    {
      assert s[..i + 1][..i] == s[..i];
      InsertStep(rowids, dists, i);
      i := i + 1;
    }
    assert s[..n] == s;
  }

  /** Vectors read so far; an entry stays `None` until a read succeeds. */
  ghost predicate CacheOf(cache: seq<Option<Vec>>, c: seq<Bid>, vectors: map<int, Vec>) {
    && |cache| == |c|
    && forall i :: 0 <= i < |c| && cache[i].Some? ==> c[i].rowid in vectors && vectors[c[i].rowid] == cache[i].value
  }

  method LoadVector(cache: array<Option<Vec>>, i: nat, row: int, vectors: map<int, Vec>)
    requires i < cache.Length
    requires cache[i].Some? ==> row in vectors && vectors[row] == cache[i].value
    modifies cache
    ensures cache[i] == if row in vectors then Some(vectors[row]) else None
    ensures forall k :: 0 <= k < cache.Length && k != i ==> cache[k] == old(cache[k])
  {
    if cache[i].None? && row in vectors {
      cache[i] := Some(vectors[row]);
    }
  }

  /** Deactivate the pick, then what it covers, loading vectors as needed. */
  method CoverByVectors(c: seq<Bid>, vectors: map<int, Vec>, m: Metric, alpha: real,
                        active: array<bool>, cache: array<Option<Vec>>, best: nat)
    requires best < |c| == active.Length == cache.Length && CacheOf(cache[..], c, vectors)
    modifies active, cache
    ensures CacheOf(cache[..], c, vectors)
    ensures forall k :: 0 <= k < |c| ==>
              active[k] == (old(active[k]) && k != best && !RowCover(c, vectors, m, alpha)(best, k))
  {
    active[best] := false;
    LoadVector(cache, best, c[best].rowid, vectors);
    if cache[best].None? {
      return;
    }
    for i := 0 to |c|
      invariant CacheOf(cache[..], c, vectors) && cache[best] == Some(vectors[c[best].rowid])
                  && c[best].rowid in vectors
      invariant forall k :: 0 <= k < i ==>
                  active[k] == (old(active[k]) && k != best && !RowCover(c, vectors, m, alpha)(best, k))
      invariant forall k :: i <= k < |c| ==> active[k] == (old(active[k]) && k != best)
    {
      if active[i] {
        LoadVector(cache, i, c[i].rowid, vectors);
        if cache[i].Some? {
          var d := m.exact(cache[best].value, cache[i].value);
          if alpha * d <= c[i].distance {
            active[i] := false;
          }
        }
      }
    }
  }

  method RobustPrune(vectors: map<int, Vec>, m: Metric, p: int, rowids: array<int>, dists: array<real>, num: nat,
                     alpha: real, maxNeighbors: nat)
    returns (chosen: seq<int>)
    requires num <= rowids.Length && num <= dists.Length
    modifies rowids, dists
    ensures chosen == ChosenNeighbours(old(Loaded(rowids, dists, num)), p, vectors, m, alpha, maxNeighbors)
  {
    var n := DropSelf(rowids, dists, num, p);
    if n == 0 {
      assert StableSort([]) == [];
      return [];
    }
    SortPairs(rowids, dists, n);
    var c := seq(n, i requires 0 <= i < n reads rowids, dists => Bid(rowids[i], dists[i]));
    assert c == Loaded(rowids, dists, n);
    chosen := SelectRows(c, vectors, m, alpha, maxNeighbors);
  }

  method SelectRows(c: seq<Bid>, vectors: map<int, Vec>, m: Metric, alpha: real, maxNeighbors: nat)
    returns (chosen: seq<int>)
    ensures forall i :: 0 <= i < |Greedy(Range(|c|), RowCover(c, vectors, m, alpha), maxNeighbors)| ==>
              Greedy(Range(|c|), RowCover(c, vectors, m, alpha), maxNeighbors)[i] < |c|
    ensures chosen == RowsOf(c, Greedy(Range(|c|), RowCover(c, vectors, m, alpha), maxNeighbors))
  {
    hide Greedy, RowCover;
    var n := |c|;
    ghost var covers := RowCover(c, vectors, m, alpha);
    GreedyStaysInRange(n, covers, maxNeighbors);
    var active := new bool[n](_ => true);
    var cache := new Option<Vec>[n](_ => None);
    ghost var picks: seq<nat> := [];
    SelectingStarts(n, covers, maxNeighbors, active[..]);
    chosen := [];
    var round := 0;
    while round < n && |chosen| < maxNeighbors
      invariant |chosen| == |picks| && Selecting(n, covers, maxNeighbors, active[..], picks, round)
      invariant forall i :: 0 <= i < |picks| ==> picks[i] < n && chosen[i] == c[picks[i]].rowid
      invariant CacheOf(cache[..], c, vectors)
    {
      var best := FirstActive(active);
      if best == n {
        break;
      }
      ghost var flags := active[..];
      chosen := chosen + [c[best].rowid];
      CoverByVectors(c, vectors, m, alpha, active, cache, best);
      SelectingContinues(n, covers, maxNeighbors, flags, active[..], picks, round, best);
      picks := picks + [best];
      round := round + 1;
    }
    SelectingEnds(n, covers, maxNeighbors, active[..], picks, round);
  }
}
