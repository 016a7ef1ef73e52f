/** KNN over an IVF index without quantizer: pick the nearest centroids by a partial
    selection sort, scan their cells and the unassigned ones, sort, keep the first k. */
module IvfQuery {
  import opened Wrappers
  import opened Order
  import opened IvfCells
  import opened IvfRebuild
  import opened IvfReachable
  import opened IvfIndex

  datatype Candidate = Candidate(rowid: int, distance: real)

  datatype CentroidDist = CentroidDist(id: int, dist: real)

  // ---- scanning -------------------------------------------------------------------------------

  function HitsOf(rows: seq<Row>, q: Vec, dist: Distance): (hits: seq<Candidate>)
    ensures |hits| == |rows|
    ensures forall i :: 0 <= i < |rows| ==> hits[i] == Candidate(rows[i].rowid, dist(q, rows[i].vec))
  {
    seq(|rows|, i requires 0 <= i < |rows| => Candidate(rows[i].rowid, dist(q, rows[i].vec)))
  }

  /** Rows read from the cells of the given centroids: of each cell, valid slots in order
      until its counter is used up. */
  function Probed(cells: seq<Cell>, ids: set<int>): (rows: seq<Row>) {
    if cells == [] then [] else
      var n := |cells| - 1;
      Probed(cells[..n], ids) + (if cells[n].centroid in ids then Cut(LiveSlots(cells[n].slots), cells[n].n) else [])
  }

  method ScanCell(c: Cell, q: Vec, dist: Distance) returns (hits: seq<Candidate>)
    ensures hits == HitsOf(Cut(LiveSlots(c.slots), c.n), q, dist)
  {
    hits := [];
    ghost var rows: seq<Row> := [];
    var found, i := 0, 0;
    while i < |c.slots| && found < c.n
      invariant 0 <= i <= |c.slots| && hits == HitsOf(rows, q, dist) && found == |rows|
      invariant rows == Cut(LiveSlots(c.slots[..i]), c.n)
    {
      assert c.slots[..i + 1][..i] == c.slots[..i];
      if c.slots[i].valid {
        CutSnoc(LiveSlots(c.slots[..i]), c.slots[i].row, c.n);
        found := found + 1;
        hits := hits + [Candidate(c.slots[i].row.rowid, dist(q, c.slots[i].row.vec))];
        rows := rows + [c.slots[i].row];
      } else {
        assert LiveSlots(c.slots[..i + 1]) == LiveSlots(c.slots[..i]);
      }
      i := i + 1;
    }
    CutSettles(c.slots, i, c.n);
  }

  /** Once the counter is used up, or the slots are, the rest of the cell adds nothing. */
  lemma CutSettles(slots: seq<Slot>, i: nat, n: int)
    requires i <= |slots| && (i == |slots| || |Cut(LiveSlots(slots[..i]), n)| >= n)
    ensures Cut(LiveSlots(slots[..i]), n) == Cut(LiveSlots(slots), n)
  {
    var front := LiveSlots(slots[..i]);
    LiveSlotsPrefix(slots, i);
    if i < |slots| {
      CutFull(front, LiveSlots(slots)[|front|..], n);
      assert front + LiveSlots(slots)[|front|..] == LiveSlots(slots);
    } else {
      assert slots[..i] == slots;
    }
  }

  lemma HitsConcat(a: seq<Row>, b: seq<Row>, q: Vec, dist: Distance)
    ensures HitsOf(a + b, q, dist) == HitsOf(a, q, dist) + HitsOf(b, q, dist)
  {
  }

  method ScanCells(cells: seq<Cell>, ids: set<int>, q: Vec, dist: Distance) returns (hits: seq<Candidate>)
    ensures hits == HitsOf(Probed(cells, ids), q, dist)
  {
    hits := [];
    for i := 0 to |cells|
      invariant hits == HitsOf(Probed(cells[..i], ids), q, dist)
    {
      assert cells[..i + 1][..i] == cells[..i];
      ghost var before := Probed(cells[..i], ids);
      if cells[i].centroid in ids && cells[i].n != 0 {
        var more := ScanCell(cells[i], q, dist);
        HitsConcat(before, Cut(LiveSlots(cells[i].slots), cells[i].n), q, dist);
        hits := hits + more;
      } else {
        assert Probed(cells[..i + 1], ids) == before;
      }
    }
    assert cells[..|cells|] == cells;
  }

  /** Rows whose own nearest centroid is one of `ids`. */
  ghost function Near(t: Tables, rows: seq<Row>, ids: set<int>, dist: Distance): (r: seq<Row>)
    requires t.trained ==> t.centroids != []
  {
    if rows == [] then [] else
      var n := |rows| - 1;
      Near(t, rows[..n], ids, dist) + (if Home(t, rows[n].vec, dist) in ids then [rows[n]] else [])
  }

  lemma {:induction false} NearConcat(t: Tables, a: seq<Row>, b: seq<Row>, ids: set<int>, dist: Distance)
    requires t.trained ==> t.centroids != []
    ensures Near(t, a + b, ids, dist) == Near(t, a, ids, dist) + Near(t, b, ids, dist)
  {
    if b == [] {
      assert a + b == a;
    } else {
      var n := |b| - 1;
      NearConcat(t, a, b[..n], ids, dist);
      assert (a + b)[..|a + b| - 1] == a + b[..n];
    }
  }

  lemma {:induction false} NearSame(t: Tables, rows: seq<Row>, ids: set<int>, dist: Distance, c: int)
    requires t.trained ==> t.centroids != []
    requires forall i :: 0 <= i < |rows| ==> Home(t, rows[i].vec, dist) == c
    ensures Near(t, rows, ids, dist) == if c in ids then rows else []
  {
    if rows != [] {
      NearSame(t, rows[..|rows| - 1], ids, dist, c);
    }
  }

  lemma CellRowsHome(t: Tables, c: Cell, dist: Distance)
    requires (t.trained ==> t.centroids != []) && HomeCell(t, c, dist)
    ensures forall i :: 0 <= i < |LiveSlots(c.slots)| ==> Home(t, LiveSlots(c.slots)[i].vec, dist) == c.centroid
  {
    var rows := LiveSlots(c.slots);
    forall i | 0 <= i < |rows|
      ensures Home(t, rows[i].vec, dist) == c.centroid
    {
      assert rows[i] in multiset(rows);
      var s := LiveSlotAt(c.slots, rows[i]);
    }
  }

  lemma {:induction false} ScanReadsHomes(t: Tables, cells: seq<Cell>, ids: set<int>, dist: Distance)
    requires t.trained ==> t.centroids != []
    requires Covered(cells) && forall i :: 0 <= i < |cells| ==> HomeCell(t, cells[i], dist)
    ensures Probed(cells, ids) == Near(t, Live(cells), ids, dist)
  {
    hide HomeCell, LiveSlots, Home;
    if cells != [] {
      var n := |cells| - 1;
      ScanReadsHomes(t, cells[..n], ids, dist);
      assert HomeCell(t, cells[n], dist);
      var rows := LiveSlots(cells[n].slots);
      CellRowsHome(t, cells[n], dist);
      NearSame(t, rows, ids, dist, cells[n].centroid);
      NearConcat(t, Live(cells[..n]), rows, ids, dist);
      assert Cut(rows, cells[n].n) == rows;
    }
  }

  /** On every reachable index a scan reads exactly the live rows whose nearest centroid is
      among the probed ones. */
  lemma ProbesReadHomes(t: Tables, ids: set<int>, dist: Distance)
    requires Grounded(t) && Assigned(t, dist)
    ensures Probed(t.cells, ids) == Near(t, Live(t.cells), ids, dist)
  {
    GroundedCovers(t);
    ScanReadsHomes(t, t.cells, ids, dist);
  }

  // ---- nearest centroids ------------------------------------------------------------------------

  function CentroidDists(centroids: seq<Vec>, q: Vec, dist: Distance): (cd: seq<CentroidDist>) {
    seq(|centroids|, i requires 0 <= i < |centroids| => CentroidDist(i, dist(q, centroids[i])))
  }

  /** The first `p` entries are sorted and no later entry is nearer. */
  ghost predicate Selected(cd: seq<CentroidDist>, p: nat) {
    forall i, j :: 0 <= i < p && i < j < |cd| ==> cd[i].dist <= cd[j].dist
  }

  method SelectNearest(cd: array<CentroidDist>, p: nat)
    requires p <= cd.Length
    modifies cd
    ensures multiset(cd[..]) == multiset(old(cd[..]))
    ensures Selected(cd[..], p)
  {
    for i := 0 to p
      invariant multiset(cd[..]) == multiset(old(cd[..]))
      invariant Selected(cd[..], i)
    {
      var m := LeastFrom(cd, i);
      ghost var was := cd[..];
      cd[i], cd[m] := cd[m], cd[i];
      assert cd[..] == was[i := was[m]][m := was[i]];
      SwapSelects(was, i, m);
    }
  }

  method LeastFrom(cd: array<CentroidDist>, i: nat) returns (m: nat)
    requires i < cd.Length
    ensures i <= m < cd.Length && forall j :: i <= j < cd.Length ==> cd[m].dist <= cd[j].dist
  {
    m := i;
    for j := i + 1 to cd.Length
      invariant i <= m < j && forall l :: i <= l < j ==> cd[m].dist <= cd[l].dist
    {
      if cd[j].dist < cd[m].dist {
        m := j;
      }
    }
  }

  lemma SwapSelects(cd: seq<CentroidDist>, i: nat, m: nat)
    requires i <= m < |cd| && Selected(cd, i) && forall j :: i <= j < |cd| ==> cd[m].dist <= cd[j].dist
    ensures Selected(cd[i := cd[m]][m := cd[i]], i + 1)
    ensures multiset(cd[i := cd[m]][m := cd[i]]) == multiset(cd)
  {
  }

  /** `ids` are `p` centroids, none farther from the query than one left out. */
  ghost predicate NearestIds(ids: set<int>, centroids: seq<Vec>, q: Vec, dist: Distance, p: nat) {
    && |ids| == p
    && (forall a :: a in ids ==> 0 <= a < |centroids|)
    && (forall a, b: nat :: a in ids && b < |centroids| && b !in ids ==> dist(q, centroids[a]) <= dist(q, centroids[b]))
  }

  ghost predicate IsEntry(c: CentroidDist, centroids: seq<Vec>, q: Vec, dist: Distance) {
    0 <= c.id < |centroids| && c.dist == dist(q, centroids[c.id])
  }

  function PrefixIds(cd: seq<CentroidDist>, p: nat): (ids: set<int>)
    requires p <= |cd|
  {
    if p == 0 then {} else PrefixIds(cd, p - 1) + {cd[p - 1].id}
  }

  lemma {:induction false} PrefixIdsAre(cd: seq<CentroidDist>, p: nat, a: int)
    requires p <= |cd|
    ensures a in PrefixIds(cd, p) <==> exists i :: 0 <= i < p && cd[i].id == a
  {
    if p > 0 {
      PrefixIdsAre(cd, p - 1, a);
    }
  }

  ghost predicate DistinctIds(cd: seq<CentroidDist>) {
    forall i, j :: 0 <= i < j < |cd| ==> cd[i].id != cd[j].id
  }

  lemma {:induction false} PrefixIdsCount(cd: seq<CentroidDist>, p: nat)
    requires p <= |cd| && DistinctIds(cd)
    ensures |PrefixIds(cd, p)| == p
  {
    if p > 0 {
      PrefixIdsCount(cd, p - 1);
      PrefixIdsAre(cd, p - 1, cd[p - 1].id);
    }
  }

  lemma {:induction false} CountOfId(cd: seq<CentroidDist>, c: CentroidDist)
    requires forall i, j :: 0 <= i < j < |cd| ==> cd[i] != cd[j]
    ensures multiset(cd)[c] <= 1
  {
    if cd != [] {
      var n := |cd| - 1;
      CountOfId(cd[..n], c);
      assert cd == cd[..n] + [cd[n]];
      if cd[n] == c {
        assert c !in cd[..n];
        assert c !in multiset(cd[..n]);
      }
    }
  }

  lemma TwiceCounted(cd: seq<CentroidDist>, i: nat, j: nat)
    requires i < j < |cd| && cd[i] == cd[j]
    ensures multiset(cd)[cd[i]] >= 2
  {
    assert cd == cd[..j] + cd[j..];
    assert cd[i] in multiset(cd[..j]) && cd[i] in multiset(cd[j..]);
  }

  /** Any arrangement of the centroid list holds each centroid once. */
  lemma ArrangedEntries(cd: seq<CentroidDist>, centroids: seq<Vec>, q: Vec, dist: Distance)
    requires multiset(cd) == multiset(CentroidDists(centroids, q, dist))
    ensures |cd| == |centroids| && DistinctIds(cd)
    ensures forall i :: 0 <= i < |cd| ==> IsEntry(cd[i], centroids, q, dist)
    ensures forall b: nat :: b < |centroids| ==>
              exists i :: 0 <= i < |cd| && cd[i] == CentroidDist(b, dist(q, centroids[b]))
  {
    var list := CentroidDists(centroids, q, dist);
    assert |multiset(cd)| == |cd| && |multiset(list)| == |list|;
    forall i | 0 <= i < |cd|
      ensures IsEntry(cd[i], centroids, q, dist)
    {
      assert cd[i] in multiset(list);
      var j :| 0 <= j < |list| && list[j] == cd[i];
    }
    forall b: nat | b < |centroids|
      ensures exists i :: 0 <= i < |cd| && cd[i] == CentroidDist(b, dist(q, centroids[b]))
    {
      assert list[b] in multiset(cd);
    }
    forall i, j | 0 <= i < j < |cd|
      ensures cd[i].id != cd[j].id
    {
      if cd[i].id == cd[j].id {
        assert IsEntry(cd[i], centroids, q, dist) && IsEntry(cd[j], centroids, q, dist);
        TwiceCounted(cd, i, j);
        CountOfId(list, cd[i]);
      }
    }
  }

  lemma SelectionIsNearest(cd: seq<CentroidDist>, centroids: seq<Vec>, q: Vec, dist: Distance, p: nat)
    requires multiset(cd) == multiset(CentroidDists(centroids, q, dist)) && p <= |cd| && Selected(cd, p)
    ensures NearestIds(PrefixIds(cd, p), centroids, q, dist, p)
  {
    ArrangedEntries(cd, centroids, q, dist);
    PrefixIdsCount(cd, p);
    var ids := PrefixIds(cd, p);
    forall a | a in ids
      ensures 0 <= a < |centroids|
    {
      PrefixIdsAre(cd, p, a);
      var i :| 0 <= i < p && cd[i].id == a;
      assert IsEntry(cd[i], centroids, q, dist);
    }
    forall a, b: nat | a in ids && b < |centroids| && b !in ids
      ensures dist(q, centroids[a]) <= dist(q, centroids[b])
    {
      PrefixIdsAre(cd, p, a);
      PrefixIdsAre(cd, p, b);
      var i :| 0 <= i < p && cd[i].id == a;
      assert IsEntry(cd[i], centroids, q, dist);
      var j :| 0 <= j < |cd| && cd[j] == CentroidDist(b, dist(q, centroids[b]));
      assert p <= j;
    }
  }

  // ---- answers ------------------------------------------------------------------------------------

  predicate NotFarther(a: Candidate, b: Candidate) {
    a.distance <= b.distance
  }

  function Least(k: nat, n: nat): nat {
    if n < k then n else k
  }

  /** The first `k` of the candidates in some order of non-decreasing distance, as an
      unstable sort leaves them. */
  ghost predicate IsAnswer(r: seq<Candidate>, cands: seq<Candidate>, k: nat) {
    exists full: seq<Candidate> ::
      multiset(full) == multiset(cands) && SortedBy(full, NotFarther) && r == full[..Least(k, |full|)]
  }

  ghost function Distances(s: seq<Candidate>): (d: seq<real>)
    ensures |d| == |s|
  {
    if s == [] then [] else Distances(s[..|s| - 1]) + [s[|s| - 1].distance]
  }

  /** An answer holds as many candidates as asked for or all, and none left out is nearer. */
  lemma AnswerIsNearest(r: seq<Candidate>, cands: seq<Candidate>, k: nat, x: Candidate, y: Candidate)
    requires IsAnswer(r, cands, k)
    ensures |r| == (if |cands| < k then |cands| else k) && multiset(r) <= multiset(cands)
    ensures x in multiset(r) && y in multiset(cands) - multiset(r) ==> x.distance <= y.distance
  {
    var full :| multiset(full) == multiset(cands) && SortedBy(full, NotFarther) && r == full[..Least(k, |full|)];
    BagLength(full, cands);
    FrontIsNearest(full, Least(k, |full|), x, y);
  }

  /** The front of a sorted list, and what it leaves behind. */
  lemma FrontIsNearest(full: seq<Candidate>, n: nat, x: Candidate, y: Candidate)
    requires SortedBy(full, NotFarther) && n <= |full|
    ensures multiset(full[..n]) <= multiset(full)
    ensures x in multiset(full[..n]) && y in multiset(full) - multiset(full[..n]) ==> x.distance <= y.distance
  {
    hide SortedBy;
    var r := full[..n];
    assert full == full[..n] + full[n..];
    if x in multiset(r) && y in multiset(full) - multiset(r) {
      assert y in multiset(full[n..]);
      var i :| 0 <= i < |r| && r[i] == x;
      var j :| 0 <= j < |full[n..]| && full[n..][j] == y;
      SortedPair(full, i, n + j);
    }
  }

  lemma SortedPair(full: seq<Candidate>, i: nat, j: nat)
    requires SortedBy(full, NotFarther) && i < j < |full|
    ensures full[i].distance <= full[j].distance
  {
    assert NotFarther(full[i], full[j]);
  }

  /** An answer comes nearest first. */
  lemma AnswerIsSorted(r: seq<Candidate>, cands: seq<Candidate>, k: nat)
    requires IsAnswer(r, cands, k)
    ensures forall i, j :: 0 <= i < j < |r| ==> r[i].distance <= r[j].distance
  {
    var full :| multiset(full) == multiset(cands) && SortedBy(full, NotFarther) && r == full[..Least(k, |full|)];
    assert forall i, j :: 0 <= i < j < |r| ==> NotFarther(full[i], full[j]);
  }

  method SortAndCut(cands: seq<Candidate>, k: nat) returns (r: seq<Candidate>)
    ensures IsAnswer(r, cands, k)
  {
    var full := Sort(cands, NotFarther);
    SortSorts(cands, NotFarther);
    r := full[..Least(k, |full|)];
  }

  predicate AtMost(a: real, b: real) {
    a <= b
  }

  lemma {:induction false} DistancesAt(s: seq<Candidate>, i: nat)
    requires i < |s|
    ensures Distances(s)[i] == s[i].distance
  {
    if i < |s| - 1 {
      DistancesAt(s[..|s| - 1], i);
    }
  }

  lemma {:induction false} DistancesConcat(a: seq<Candidate>, b: seq<Candidate>)
    ensures Distances(a + b) == Distances(a) + Distances(b)
  {
    if b == [] {
      assert a + b == a;
    } else {
      DistancesConcat(a, b[..|b| - 1]);
      assert (a + b)[..|a + b| - 1] == a + b[..|b| - 1];
    }
  }

  function DistanceOf(): Candidate -> Option<real> {
    (c: Candidate) => Some(c.distance)
  }

  lemma {:induction false} DistancesAreImages(s: seq<Candidate>)
    ensures Distances(s) == FilterMap(DistanceOf(), s)
  {
    if s != [] {
      DistancesAreImages(s[..|s| - 1]);
    }
  }

  lemma DistancesSorted(s: seq<Candidate>)
    requires SortedBy(s, NotFarther)
    ensures SortedBy(Distances(s), AtMost)
  {
    forall i, j | 0 <= i < j < |s|
      ensures AtMost(Distances(s)[i], Distances(s)[j])
    {
      DistancesAt(s, i);
      DistancesAt(s, j);
      assert NotFarther(s[i], s[j]);
    }
  }

  lemma ArrangedDistances(full: seq<Candidate>, cands: seq<Candidate>)
    requires multiset(full) == multiset(cands) && SortedBy(full, NotFarther)
    ensures Distances(full) == Sort(Distances(cands), AtMost)
  {
    hide Distances, Sort;
    DistancesAreImages(full);
    DistancesAreImages(cands);
    FilterMapForgetsOrder(DistanceOf(), full, cands);
    DistancesSorted(full);
    SortSorts(Distances(cands), AtMost);
    SortedIsUnique(Distances(full), Sort(Distances(cands), AtMost), AtMost);
  }

  /** The distances answered are determined: the first `k` of all distances in order. */
  lemma AnswerDistances(r: seq<Candidate>, cands: seq<Candidate>, k: nat)
    requires IsAnswer(r, cands, k)
    ensures Distances(r) == Sort(Distances(cands), AtMost)[..Least(k, |cands|)]
  {
    hide Distances, Sort, SortedBy;
    var full :| multiset(full) == multiset(cands) && SortedBy(full, NotFarther) && r == full[..Least(k, |full|)];
    BagLength(full, cands);
    ArrangedDistances(full, cands);
    var n := Least(k, |full|);
    assert full == full[..n] + full[n..];
    DistancesConcat(full[..n], full[n..]);
  }

  // ---- the query ------------------------------------------------------------------------------------

  function ActualProbes(nprobe: int, nlist: nat): int {
    if nprobe < nlist then nprobe else nlist
  }

  /** What one query may answer: no row list is built from zero probed centroids, which
      the statement reports as an error. */
  ghost predicate KnnAnswer(t: Tables, q: Vec, dist: Distance, k: nat, nprobe: int, r: Option<seq<Candidate>>) {
    var p := ActualProbes(nprobe, |t.centroids|);
    if t.trained && p <= 0 then r == None
    else if !t.trained then r.Some? && IsAnswer(r.value, HitsOf(Probed(t.cells, {UNASSIGNED}), q, dist), k)
    else r.Some? && exists ids: set<int> ::
           NearestIds(ids, t.centroids, q, dist, p)
               && IsAnswer(r.value, HitsOf(Probed(t.cells, ids + {UNASSIGNED}), q, dist), k)
  }

  method QueryKnn(index: Index, q: Vec, k: nat, nprobe: int) returns (r: Option<seq<Candidate>>)
    ensures KnnAnswer(index.State(), q, index.dist, k, nprobe, r)
    ensures r.None? <==> index.trained && (nprobe <= 0 || index.centroids == [])
  {
    if !index.trained {
      var hits := ScanCells(index.cells, {UNASSIGNED}, q, index.dist);
      var best := SortAndCut(hits, k);
      return Some(best);
    }
    var list := CentroidDists(index.centroids, q, index.dist);
    var cd := new CentroidDist[|list|](i requires 0 <= i < |list| => list[i]);
    assert cd[..] == list;
    var p := ActualProbes(nprobe, |list|);
    if p <= 0 {
      return None;
    }
    SelectNearest(cd, p);
    SelectionIsNearest(cd[..], index.centroids, q, index.dist, p);
    var ids := PrefixIds(cd[..], p);
    var hits := ScanCells(index.cells, ids + {UNASSIGNED}, q, index.dist);
    var best := SortAndCut(hits, k);
    return Some(best);
  }

  ghost predicate AllHomes(t: Tables, ids: set<int>) {
    if t.trained then t.centroids != [] && forall c :: 0 <= c < |t.centroids| ==> c in ids else UNASSIGNED in ids
  }

  lemma HomeProbed(t: Tables, v: Vec, ids: set<int>, dist: Distance)
    requires AllHomes(t, ids)
    ensures Home(t, v, dist) in ids
  {
  }

  lemma {:induction false} NearAll(t: Tables, rows: seq<Row>, ids: set<int>, dist: Distance)
    requires (t.trained ==> t.centroids != []) && AllHomes(t, ids)
    ensures Near(t, rows, ids, dist) == rows
  {
    hide AllHomes, Home;
    if rows != [] {
      var n := |rows| - 1;
      NearAll(t, rows[..n], ids, dist);
      HomeProbed(t, rows[n].vec, ids, dist);
      assert rows == rows[..n] + [rows[n]];
    }
  }

  lemma {:induction false} NearIgnoresUnassigned(t: Tables, rows: seq<Row>, ids: set<int>, dist: Distance)
    requires t.trained && t.centroids != []
    ensures Near(t, rows, ids + {UNASSIGNED}, dist) == Near(t, rows, ids, dist)
  {
    if rows != [] {
      NearIgnoresUnassigned(t, rows[..|rows| - 1], ids, dist);
    }
  }

  /** The centroids a query with `nprobe` probes looks into: as many as asked for, or all when
      there are not more than that, none of them farther from the query than one left out. */
  ghost predicate Probes(ids: set<int>, centroids: seq<Vec>, q: Vec, dist: Distance, nprobe: int) {
    && (forall a :: a in ids ==> 0 <= a < |centroids|)
    && (nprobe < |centroids| ==> |ids| == nprobe)
    && (nprobe >= |centroids| ==> forall a: nat :: a < |centroids| ==> a in ids)
    && (forall a, b: nat :: a in ids && b < |centroids| && b !in ids ==> dist(q, centroids[a]) <= dist(q, centroids[b]))
  }

  lemma NearestAreProbes(ids: set<int>, centroids: seq<Vec>, q: Vec, dist: Distance, nprobe: int)
    requires nprobe > 0 && NearestIds(ids, centroids, q, dist, ActualProbes(nprobe, |centroids|))
    ensures Probes(ids, centroids, q, dist, nprobe)
  {
    if nprobe >= |centroids| {
      AllIds(ids, |centroids|);
    }
  }

  /** On a reachable trained index the answer is the exact `k` nearest of the live rows
      whose own centroid is among the probed nearest ones. */
  lemma KnnIsExactOverProbes(t: Tables, q: Vec, dist: Distance, k: nat, nprobe: int, r: Option<seq<Candidate>>)
    requires Grounded(t) && Assigned(t, dist) && t.trained && nprobe > 0
    requires KnnAnswer(t, q, dist, k, nprobe, r)
    ensures r.Some? && exists ids: set<int> ::
              && Probes(ids, t.centroids, q, dist, nprobe)
              && IsAnswer(r.value, HitsOf(Near(t, Live(t.cells), ids, dist), q, dist), k)
  {
    var p := ActualProbes(nprobe, |t.centroids|);
    var ids: set<int> :| NearestIds(ids, t.centroids, q, dist, p)
                         && IsAnswer(r.value, HitsOf(Probed(t.cells, ids + {UNASSIGNED}), q, dist), k);
    ProbesReadHomes(t, ids + {UNASSIGNED}, dist);
    NearIgnoresUnassigned(t, Live(t.cells), ids, dist);
    NearestAreProbes(ids, t.centroids, q, dist, nprobe);
  }

  /** Probing every centroid, or querying an untrained index, equals a brute-force scan
      of all live rows. */
  lemma FullProbeIsBruteForce(t: Tables, q: Vec, dist: Distance, k: nat, nprobe: int, r: Option<seq<Candidate>>)
    requires Grounded(t) && Assigned(t, dist) && (t.trained ==> nprobe >= |t.centroids|)
    requires KnnAnswer(t, q, dist, k, nprobe, r)
    ensures r.Some? && IsAnswer(r.value, HitsOf(Live(t.cells), q, dist), k)
    ensures Distances(r.value) == Sort(Distances(HitsOf(Live(t.cells), q, dist)), AtMost)[..Least(k, |Live(t.cells)|)]
  {
    if t.trained {
      var ids: set<int> :| NearestIds(ids, t.centroids, q, dist, |t.centroids|)
                           && IsAnswer(r.value, HitsOf(Probed(t.cells, ids + {UNASSIGNED}), q, dist), k);
      AllIds(ids, |t.centroids|);
      ProbesReadHomes(t, ids + {UNASSIGNED}, dist);
      NearAll(t, Live(t.cells), ids + {UNASSIGNED}, dist);
    } else {
      ProbesReadHomes(t, {UNASSIGNED}, dist);
      NearAll(t, Live(t.cells), {UNASSIGNED}, dist);
    }
    AnswerDistances(r.value, HitsOf(Live(t.cells), q, dist), k);
  }

  /** Over whole runs: whatever was inserted, deleted, overwritten or rebuilt, a query of the
      index a run reached is exact over the rows live there. */
  lemma RunsAnswerExactly(states: seq<Tables>, events: seq<Event>, q: Vec, dist: Distance, k: nat, nprobe: int,
                          r: Option<seq<Candidate>>)
    requires IsRun(states, events, dist)
    requires KnnAnswer(states[|events|], q, dist, k, nprobe, r)
    ensures var t := states[|events|];
            && (t.trained && nprobe > 0 ==> r.Some? && exists ids: set<int> ::
                  && Probes(ids, t.centroids, q, dist, nprobe)
                  && IsAnswer(r.value, HitsOf(Near(t, Live(t.cells), ids, dist), q, dist), k))
            && (!t.trained || nprobe >= |t.centroids| ==>
                  && r.Some? && IsAnswer(r.value, HitsOf(Live(t.cells), q, dist), k)
                  && Distances(r.value)
                      == Sort(Distances(HitsOf(Live(t.cells), q, dist)), AtMost)[..Least(k, |Live(t.cells)|)])
  {
    hide Grounded, Assigned, KnnAnswer, Live, Near, HitsOf, Distances, IsAnswer, Probes, Sort;
    RunsAreGrounded(states, events, dist, |events|);
    var t := states[|events|];
    if t.trained && nprobe > 0 {
      KnnIsExactOverProbes(t, q, dist, k, nprobe, r);
    }
    if !t.trained || nprobe >= |t.centroids| {
      FullProbeIsBruteForce(t, q, dist, k, nprobe, r);
    }
  }

  function Upto(n: nat): (s: set<int>)
    ensures |s| == n && forall c: int :: c in s <==> 0 <= c < n
  {
    if n == 0 then {} else Upto(n - 1) + {n - 1}
  }

  lemma AllIds(ids: set<int>, n: nat)
    requires |ids| == n && forall a :: a in ids ==> 0 <= a < n
    ensures forall c: nat :: c < n ==> c in ids
  {
    assert ids <= Upto(n);
    forall c: nat | c < n
      ensures c in ids
    {
      if c !in ids {
        SubsetSize(ids, Upto(n) - {c});
      }
    }
  }
}
