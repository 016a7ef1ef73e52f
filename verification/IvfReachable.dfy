/** What every reachable IVF index keeps, overwritten rows or not: the rowid map knows every
    valid slot, and no counter falls below the rows the map places in its cell. */
module IvfReachable {
  import opened Wrappers
  import opened IvfCells
  import opened IvfRebuild

  ghost predicate Sized(t: Tables) {
    forall i :: 0 <= i < |t.cells| ==> |t.cells[i].slots| == CELL_MAX
  }

  ghost predicate InRange(t: Tables) {
    forall r :: r in t.rowMap ==> t.rowMap[r].cell < |t.cells| && t.rowMap[r].slot < CELL_MAX
  }

  /** Rowids the map places in cell `i`. */
  ghost function Held(rowMap: map<int, Place>, i: nat): (ids: set<int>) {
    set r | r in rowMap && rowMap[r].cell == i
  }

  ghost predicate Counted(t: Tables) {
    forall i: nat :: i < |t.cells| ==> |Held(t.rowMap, i)| <= t.cells[i].n
  }

  ghost predicate Grounded(t: Tables) {
    Sized(t) && Listed(t) && InRange(t) && Counted(t)
  }

  lemma SubsetSize(a: set<int>, b: set<int>)
    requires a <= b
    ensures |a| <= |b|
  {
    assert b == a + (b - a) && a * (b - a) == {};
  }

  // ---- live rows -----------------------------------------------------------------------------

  lemma {:induction false} DistinctIdCount(rows: seq<Row>)
    requires Distinct(rows)
    ensures |Ids(rows)| == |rows|
  {
    if rows != [] {
      var n := |rows| - 1;
      DistinctIdCount(rows[..n]);
      if rows[n].rowid in Ids(rows[..n]) {
        var k := IdsFind(rows[..n], rows[n].rowid);
        SameIdTwice(rows, k, n);
      }
    }
  }

  /** The rowid of a valid slot is mapped to that slot. */
  lemma SlotMapped(t: Tables, i: nat, s: nat)
    requires Listed(t) && i < |t.cells| && s < |t.cells[i].slots| && t.cells[i].slots[s].valid
    ensures MapsTo(t, t.cells[i].slots[s].row.rowid, Place(i, s))
  {
  }

  lemma LiveSlotMapped(t: Tables, i: nat, m: nat, r: int) returns (s: nat)
    requires Listed(t) && i < |t.cells| && m <= |t.cells[i].slots| && r in Ids(LiveSlots(t.cells[i].slots[..m]))
    ensures s < m && MapsTo(t, r, Place(i, s))
  {
    var rows := LiveSlots(t.cells[i].slots[..m]);
    var k := IdsFind(rows, r);
    InLive(rows, k);
    s := LiveSlotAt(t.cells[i].slots[..m], rows[k]);
    SlotMapped(t, i, s);
  }

  lemma {:induction false} SlotsDistinct(t: Tables, i: nat, m: nat)
    requires Listed(t) && i < |t.cells| && m <= |t.cells[i].slots|
    ensures Distinct(LiveSlots(t.cells[i].slots[..m]))
  {
    if m > 0 {
      var slots := t.cells[i].slots;
      SlotsDistinct(t, i, m - 1);
      assert slots[..m][..m - 1] == slots[..m - 1];
      if slots[m - 1].valid {
        SlotMapped(t, i, m - 1);
        if slots[m - 1].row.rowid in Ids(LiveSlots(slots[..m - 1])) {
          var s := LiveSlotMapped(t, i, m - 1, slots[m - 1].row.rowid);
          assert false;
        }
        DistinctSnoc(LiveSlots(slots[..m - 1]), slots[m - 1].row);
      }
    }
  }

  lemma LiveMapped(t: Tables, m: nat, r: int) returns (i: nat, s: nat)
    requires Listed(t) && m <= |t.cells| && r in Ids(Live(t.cells[..m]))
    ensures i < m && MapsTo(t, r, Place(i, s))
  {
    var rows := Live(t.cells[..m]);
    var k := IdsFind(rows, r);
    InLive(rows, k);
    i, s := LiveAt(t.cells[..m], rows[k]);
    SlotMapped(t, i, s);
  }

  lemma DistinctJoin(a: seq<Row>, b: seq<Row>)
    requires Distinct(a) && Distinct(b) && Ids(a) !! Ids(b)
    ensures Distinct(a + b)
  {
    var all := a + b;
    forall i, j | 0 <= i < j < |all|
      ensures all[i].rowid != all[j].rowid
    {
      if i < |a| <= j {
        IdsAt(a, i);
        IdsAt(b, j - |a|);
      }
    }
  }

  lemma {:induction false} PrefixDistinct(t: Tables, m: nat)
    requires Listed(t) && m <= |t.cells|
    ensures Distinct(Live(t.cells[..m]))
  {
    if m > 0 {
      PrefixDistinct(t, m - 1);
      var front, slots := Live(t.cells[..m - 1]), t.cells[m - 1].slots;
      assert t.cells[..m][..m - 1] == t.cells[..m - 1] && slots[..|slots|] == slots;
      SlotsDistinct(t, m - 1, |slots|);
      forall r | r in Ids(front)
        ensures r !in Ids(LiveSlots(slots))
      {
        var i, s := LiveMapped(t, m - 1, r);
        if r in Ids(LiveSlots(slots)) {
          var u := LiveSlotMapped(t, m - 1, |slots|, r);
          assert false;
        }
      }
      DistinctJoin(front, LiveSlots(slots));
    }
  }

  /** Live rowids are distinct, even when rows have been overwritten. */
  lemma LiveRowsDistinct(t: Tables)
    requires Listed(t)
    ensures Distinct(Live(t.cells))
  {
    assert t.cells[..|t.cells|] == t.cells;
    PrefixDistinct(t, |t.cells|);
  }

  /** No counter is below the number of rows live in its cell. */
  lemma CounterCovers(t: Tables, i: nat)
    requires Grounded(t) && i < |t.cells|
    ensures |LiveSlots(t.cells[i].slots)| <= t.cells[i].n
  {
    var slots := t.cells[i].slots;
    assert slots[..|slots|] == slots;
    SlotsDistinct(t, i, |slots|);
    DistinctIdCount(LiveSlots(slots));
    forall r | r in Ids(LiveSlots(slots))
      ensures r in Held(t.rowMap, i)
    {
      var s := LiveSlotMapped(t, i, |slots|, r);
    }
    SubsetSize(Ids(LiveSlots(slots)), Held(t.rowMap, i));
  }

  /** Enough for a scan to miss nothing. */
  ghost predicate Covered(cells: seq<Cell>) {
    forall i :: 0 <= i < |cells| ==> |LiveSlots(cells[i].slots)| <= cells[i].n
  }

  lemma GroundedCovers(t: Tables)
    requires Grounded(t)
    ensures Covered(t.cells)
  {
    forall i | 0 <= i < |t.cells|
      ensures |LiveSlots(t.cells[i].slots)| <= t.cells[i].n
    {
      CounterCovers(t, i);
    }
  }

  lemma {:induction false} CoveredScan(cells: seq<Cell>)
    requires Covered(cells)
    ensures Scanned(cells) == Live(cells) && |Live(cells)| <= Total(cells)
  {
    if cells != [] {
      var n := |cells| - 1;
      CoveredScan(cells[..n]);
      assert |LiveSlots(cells[n].slots)| <= cells[n].n;
    }
  }

  /** Loading finds every live row of every reachable index. */
  lemma LoadFindsAll(t: Tables)
    requires Grounded(t)
    ensures Loaded(t.cells) == Live(t.cells)
  {
    GroundedCovers(t);
    CoveredScan(t.cells);
  }

  /** A coherent index is one of them. */
  lemma CoherentIsGrounded(t: Tables)
    requires Coherent(t)
    ensures Grounded(t)
  {
    assert forall i :: 0 <= i < |t.cells| ==> CellShape(t.cells[i]);
    forall r | r in t.rowMap
      ensures t.rowMap[r].cell < |t.cells| && t.rowMap[r].slot < CELL_MAX
    {
      assert Points(t, r, t.rowMap[r]);
    }
    forall i: nat | i < |t.cells|
      ensures |Held(t.rowMap, i)| <= t.cells[i].n
    {
      HeldIsLive(t, i);
    }
  }

  lemma HeldIsLive(t: Tables, i: nat)
    requires Coherent(t) && i < |t.cells|
    ensures |Held(t.rowMap, i)| <= t.cells[i].n
  {
    var rows := LiveSlots(t.cells[i].slots);
    forall r | r in Held(t.rowMap, i)
      ensures r in Ids(rows)
    {
      var p := t.rowMap[r];
      assert Points(t, r, p);
      SlotIsLive(t.cells[i].slots, p.slot);
      var k :| 0 <= k < |rows| && rows[k] == t.cells[i].slots[p.slot].row;
      IdsAt(rows, k);
    }
    SubsetSize(Held(t.rowMap, i), Ids(rows));
    DistinctByCount(rows);
    assert CellShape(t.cells[i]);
  }

  // ---- steps -----------------------------------------------------------------------------------

  lemma OpenKeepsGrounded(t: Tables, centroid: int, i: nat)
    requires Grounded(t) && i <= |t.cells|
    ensures Grounded(Opened(t, centroid, i))
  {
    var u := Opened(t, centroid, i);
    if i == |t.cells| {
      AddedCellListed(t, NewCell(centroid));
      assert forall r :: r in t.rowMap ==> t.rowMap[r].cell < i;
      assert forall r :: r in Held(t.rowMap, i) ==> false;
      assert Held(t.rowMap, i) == {};
    }
  }

  /** Writing a new rowid at the counter, free slot or not. */
  lemma PutKeepsGrounded(t: Tables, i: nat, row: Row)
    requires Grounded(t) && i < |t.cells| && t.cells[i].n < CELL_MAX && row.rowid !in t.rowMap
    ensures SlotInRange(t.cells[i]) && Grounded(Put(t, i, row))
  {
    assert |Held(t.rowMap, i)| <= t.cells[i].n;
    PutKeepsListed(t, i, row);
    PutKeepsCounted(t, i, row);
  }

  lemma PutKeepsListed(t: Tables, i: nat, row: Row)
    requires Listed(t) && i < |t.cells| && SlotInRange(t.cells[i]) && row.rowid !in t.rowMap
    ensures Listed(Put(t, i, row))
  {
    var n := t.cells[i].n;
    var u := Put(t, i, row);
    forall j: nat, s: nat | j < |u.cells| && s < |u.cells[j].slots| && u.cells[j].slots[s].valid
      ensures MapsTo(u, u.cells[j].slots[s].row.rowid, Place(j, s))
    {
      if j != i || s != n {
        assert u.cells[j].slots[s] == t.cells[j].slots[s];
        SlotMapped(t, j, s);
      }
    }
  }

  lemma PutKeepsCounted(t: Tables, i: nat, row: Row)
    requires Counted(t) && i < |t.cells| && SlotInRange(t.cells[i]) && row.rowid !in t.rowMap
    ensures Counted(Put(t, i, row))
  {
    var u := Put(t, i, row);
    forall j: nat | j < |u.cells|
      ensures |Held(u.rowMap, j)| <= u.cells[j].n
    {
      assert |Held(t.rowMap, j)| <= t.cells[j].n;
      if j == i {
        assert Held(u.rowMap, j) == Held(t.rowMap, j) + {row.rowid};
      } else {
        assert Held(u.rowMap, j) == Held(t.rowMap, j);
      }
    }
  }

  lemma InsertKeepsGrounded(t: Tables, row: Row, i: nat, dist: Distance)
    requires Grounded(t) && (t.trained ==> t.centroids != []) && row.rowid !in t.rowMap
    requires MayOpen(t, Home(t, row.vec, dist), i)
    ensures i < |t.cells| ==> SlotInRange(t.cells[i])
    ensures Grounded(Inserted(t, row, i, dist))
  {
    var c := Home(t, row.vec, dist);
    OpenKeepsGrounded(t, c, i);
    PutKeepsGrounded(Opened(t, c, i), i, row);
  }

  lemma DeleteKeepsGrounded(t: Tables, r: int)
    requires Grounded(t)
    ensures Grounded(Deleted(t, r))
  {
    if r in t.rowMap {
      DeleteKeepsListed(t, r);
      DeleteKeepsCounted(t, r);
    }
  }

  lemma DeleteKeepsListed(t: Tables, r: int)
    requires Listed(t) && Sized(t) && InRange(t) && r in t.rowMap
    ensures Listed(Deleted(t, r))
  {
    var p := t.rowMap[r];
    var u := Deleted(t, r);
    forall j: nat, s: nat | j < |u.cells| && s < |u.cells[j].slots| && u.cells[j].slots[s].valid
      ensures MapsTo(u, u.cells[j].slots[s].row.rowid, Place(j, s))
    {
      assert j != p.cell || s != p.slot;
      assert u.cells[j].slots[s] == t.cells[j].slots[s];
      SlotMapped(t, j, s);
    }
  }

  lemma DeleteKeepsCounted(t: Tables, r: int)
    requires Counted(t) && Sized(t) && InRange(t) && r in t.rowMap
    ensures Counted(Deleted(t, r))
  {
    var p := t.rowMap[r];
    var u := Deleted(t, r);
    forall j: nat | j < |u.cells|
      ensures |Held(u.rowMap, j)| <= u.cells[j].n
    {
      assert |Held(t.rowMap, j)| <= t.cells[j].n;
      if j == p.cell {
        assert Held(u.rowMap, j) == Held(t.rowMap, j) - {r};
      } else {
        assert Held(u.rowMap, j) == Held(t.rowMap, j);
      }
    }
  }

  /** A rebuild repairs any reachable index: coherent, packed and assigned, with exactly the
      rows that were live, each in one slot. */
  lemma RebuildRepairs(t: Tables, centroids: seq<Vec>, dist: Distance)
    requires Grounded(t) && centroids != []
    ensures var u := Rebuilt(Loaded(t.cells), centroids, dist);
            && Coherent(u) && Packed(u) && Assigned(u, dist) && Grounded(u)
            && multiset(Live(u.cells)) == multiset(Live(t.cells)) && u.rowMap.Keys == Ids(Live(t.cells))
            && u.trained && u.centroids == centroids
  {
    LoadFindsAll(t);
    LiveRowsDistinct(t);
    RebuildPartitions(Live(t.cells), centroids, dist);
    var u := Rebuilt(Loaded(t.cells), centroids, dist);
    CoherentIsGrounded(u);
    LiveIds(u);
    SameBagSameIds(Live(t.cells), Live(u.cells));
    SameBagSameIds(Live(u.cells), Live(t.cells));
  }

  lemma SameBagSameIds(a: seq<Row>, b: seq<Row>)
    requires multiset(a) == multiset(b)
    ensures Ids(a) <= Ids(b)
  {
    forall r | r in Ids(a)
      ensures r in Ids(b)
    {
      var i := IdsFind(a, r);
      assert a[i] in multiset(a);
      var j :| 0 <= j < |b| && b[j] == a[i];
      IdsAt(b, j);
    }
  }
}
