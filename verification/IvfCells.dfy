/** IVF storage without quantizer: fixed-size cells filled slot by slot, a map from rowid
    to (cell, slot), and the rebuild that regroups every vector by its nearest centroid. */
module IvfCells {
  import opened Wrappers

  const CELL_MAX: nat := 64

  const UNASSIGNED: int := -1

  type Vec = seq<real>

  type Distance = (Vec, Vec) -> real

  datatype Row = Row(rowid: int, vec: Vec)

  datatype Slot = Slot(valid: bool, row: Row)

  datatype Cell = Cell(centroid: int, n: int, slots: seq<Slot>)

  datatype Place = Place(cell: nat, slot: nat)

  /** Cells are only ever deleted all together, so a cell's id is its position; centroid
      ids are positions too, as the rebuild numbers them. */
  datatype Tables = Tables(trained: bool, centroids: seq<Vec>, cells: seq<Cell>, rowMap: map<int, Place>)

  const EMPTY := Tables(false, [], [], map[])

  const FREE := Slot(false, Row(0, []))

  // ---- live rows ----------------------------------------------------------------------------

  function LiveSlots(slots: seq<Slot>): (rows: seq<Row>) {
    if slots == [] then [] else
      var n := |slots| - 1;
      LiveSlots(slots[..n]) + (if slots[n].valid then [slots[n].row] else [])
  }

  function Live(cells: seq<Cell>): (rows: seq<Row>) {
    if cells == [] then [] else
      var n := |cells| - 1;
      Live(cells[..n]) + LiveSlots(cells[n].slots)
  }

  function One(s: Slot): multiset<Row> {
    if s.valid then multiset{s.row} else multiset{}
  }

  lemma LiveSlotsSnoc(slots: seq<Slot>, x: Slot)
    ensures multiset(LiveSlots(slots + [x])) == multiset(LiveSlots(slots)) + One(x)
  {
    assert (slots + [x])[..|slots|] == slots;
  }

  lemma LiveSnoc(cells: seq<Cell>, c: Cell)
    ensures Live(cells + [c]) == Live(cells) + LiveSlots(c.slots)
  {
    assert (cells + [c])[..|cells|] == cells;
  }

  lemma BagAppend(a: multiset<Row>, b: multiset<Row>, x: multiset<Row>, y: multiset<Row>, l: multiset<Row>)
    requires a + x == b + y
    ensures (a + l) + x == (b + l) + y
  {
    assert (a + l) + x == (a + x) + l;
    assert (b + l) + y == (b + y) + l;
  }

  lemma BagSwap(a: multiset<Row>, x: multiset<Row>, y: multiset<Row>)
    ensures (a + x) + y == (a + y) + x
  {
  }

  /** Overwriting one slot swaps its row for the new one. */
  lemma {:induction false} LiveSlotsSet(slots: seq<Slot>, s: nat, x: Slot)
    requires s < |slots|
    ensures multiset(LiveSlots(slots[s := x])) + One(slots[s]) == multiset(LiveSlots(slots)) + One(x)
  {
    var n := |slots| - 1;
    var front, last := slots[..n], slots[n];
    assert slots == front + [last];
    LiveSlotsSnoc(front, last);
    if s == n {
      assert slots[s := x] == front + [x];
      LiveSlotsSnoc(front, x);
      BagSwap(multiset(LiveSlots(front)), One(x), One(last));
    } else {
      LiveSlotsSet(front, s, x);
      assert slots[s := x] == front[s := x] + [last];
      LiveSlotsSnoc(front[s := x], last);
      BagAppend(multiset(LiveSlots(front[s := x])), multiset(LiveSlots(front)), One(slots[s]), One(x), One(last));
    }
  }

  lemma {:induction false} LiveSet(cells: seq<Cell>, i: nat, c: Cell)
    requires i < |cells|
    ensures multiset(Live(cells[i := c])) + multiset(LiveSlots(cells[i].slots))
         == multiset(Live(cells)) + multiset(LiveSlots(c.slots))
  {
    var n := |cells| - 1;
    var front, last := cells[..n], cells[n];
    assert cells == front + [last];
    LiveSnoc(front, last);
    if i == n {
      assert cells[i := c] == front + [c];
      LiveSnoc(front, c);
      BagSwap(multiset(Live(front)), multiset(LiveSlots(c.slots)), multiset(LiveSlots(last.slots)));
    } else {
      LiveSet(front, i, c);
      assert cells[i := c] == front[i := c] + [last];
      LiveSnoc(front[i := c], last);
      BagAppend(multiset(Live(front[i := c])), multiset(Live(front)), multiset(LiveSlots(cells[i].slots)),
                multiset(LiveSlots(c.slots)), multiset(LiveSlots(last.slots)));
    }
  }

  lemma {:induction false} LiveSlotsBound(slots: seq<Slot>)
    ensures |LiveSlots(slots)| <= |slots|
    ensures (exists s :: 0 <= s < |slots| && !slots[s].valid) ==> |LiveSlots(slots)| < |slots|
  {
    if slots != [] {
      var n := |slots| - 1;
      LiveSlotsBound(slots[..n]);
      assert forall s :: 0 <= s < n ==> slots[..n][s] == slots[s];
    }
  }

  lemma {:induction false} SlotIsLive(slots: seq<Slot>, s: nat)
    requires s < |slots| && slots[s].valid
    ensures slots[s].row in multiset(LiveSlots(slots))
  {
    if s < |slots| - 1 {
      SlotIsLive(slots[..|slots| - 1], s);
    }
  }

  lemma {:induction false} LiveSlotAt(slots: seq<Slot>, row: Row) returns (s: nat)
    requires row in multiset(LiveSlots(slots))
    ensures s < |slots| && slots[s] == Slot(true, row)
  {
    var n := |slots| - 1;
    if slots[n] == Slot(true, row) {
      s := n;
    } else {
      s := LiveSlotAt(slots[..n], row);
    }
  }

  lemma {:induction false} RowIsLive(cells: seq<Cell>, i: nat, s: nat)
    requires i < |cells| && s < |cells[i].slots| && cells[i].slots[s].valid
    ensures cells[i].slots[s].row in multiset(Live(cells))
  {
    if i < |cells| - 1 {
      RowIsLive(cells[..|cells| - 1], i, s);
    } else {
      SlotIsLive(cells[i].slots, s);
    }
  }

  lemma {:induction false} LiveAt(cells: seq<Cell>, row: Row) returns (i: nat, s: nat)
    requires row in multiset(Live(cells))
    ensures i < |cells| && s < |cells[i].slots| && cells[i].slots[s] == Slot(true, row)
  {
    var n := |cells| - 1;
    if row in multiset(LiveSlots(cells[n].slots)) {
      i := n;
      s := LiveSlotAt(cells[n].slots, row);
    } else {
      i, s := LiveAt(cells[..n], row);
    }
  }

  // ---- invariants ---------------------------------------------------------------------------

  ghost predicate CellShape(c: Cell) {
    |c.slots| == CELL_MAX && c.n == |LiveSlots(c.slots)|
  }

  ghost predicate Points(t: Tables, r: int, p: Place) {
    && p.cell < |t.cells| && p.slot < |t.cells[p.cell].slots|
    && t.cells[p.cell].slots[p.slot].valid && t.cells[p.cell].slots[p.slot].row.rowid == r
  }

  ghost predicate Shaped(t: Tables) {
    forall i :: 0 <= i < |t.cells| ==> CellShape(t.cells[i])
  }

  ghost predicate Mapped(t: Tables) {
    forall r :: r in t.rowMap ==> Points(t, r, t.rowMap[r])
  }

  ghost predicate MapsTo(t: Tables, r: int, p: Place) {
    r in t.rowMap && t.rowMap[r] == p
  }

  ghost predicate Listed(t: Tables) {
    forall i: nat, s: nat :: i < |t.cells| && s < |t.cells[i].slots| && t.cells[i].slots[s].valid ==>
      MapsTo(t, t.cells[i].slots[s].row.rowid, Place(i, s))
  }

  /** Every cell counts its valid slots, and the rowid map and the valid slots are
      inverse to each other. */
  ghost predicate Coherent(t: Tables) {
    Shaped(t) && Mapped(t) && Listed(t) && |t.rowMap| == |Live(t.cells)|
  }

  /** Valid slots are exactly the first `n`. */
  ghost predicate PackedCell(c: Cell) {
    forall s :: 0 <= s < |c.slots| ==> (c.slots[s].valid <==> s < c.n)
  }

  ghost predicate Packed(t: Tables) {
    forall i :: 0 <= i < |t.cells| ==> PackedCell(t.cells[i])
  }

  /** First centroid at least distance. */
  function Nearest(v: Vec, centroids: seq<Vec>, dist: Distance): (best: nat)
    requires centroids != []
    ensures best < |centroids|
  {
    var n := |centroids| - 1;
    if n == 0 then 0 else
      var b := Nearest(v, centroids[..n], dist);
      if dist(v, centroids[n]) < dist(v, centroids[b]) then n else b
  }

  lemma {:induction false} NearestIsFirstLeast(v: Vec, centroids: seq<Vec>, dist: Distance, c: nat)
    requires c < |centroids|
    ensures var best := Nearest(v, centroids, dist);
            dist(v, centroids[best]) <= dist(v, centroids[c])
                && (c < best ==> dist(v, centroids[best]) < dist(v, centroids[c]))
  {
    var n := |centroids| - 1;
    if n > 0 {
      if c < n {
        NearestIsFirstLeast(v, centroids[..n], dist, c);
      } else {
        var b := Nearest(v, centroids[..n], dist);
      }
    }
  }

  /** The centroid whose cells a new row goes to. */
  function Home(t: Tables, v: Vec, dist: Distance): (c: int)
    requires t.trained ==> t.centroids != []
  {
    if t.trained then Nearest(v, t.centroids, dist) else UNASSIGNED
  }

  /** A trained index sends a row to a centroid none is nearer than, the first of those; an
      untrained one to the unassigned cells. */
  lemma HomeIsNearest(t: Tables, v: Vec, dist: Distance, c: nat)
    requires t.trained ==> t.centroids != []
    ensures !t.trained ==> Home(t, v, dist) == -1
    ensures t.trained ==> 0 <= Home(t, v, dist) < |t.centroids|
    ensures t.trained && c < |t.centroids| ==>
              var h := Home(t, v, dist);
              dist(v, t.centroids[h]) <= dist(v, t.centroids[c])
                  && (c < h ==> dist(v, t.centroids[h]) < dist(v, t.centroids[c]))
  {
    if t.trained {
      if c < |t.centroids| {
        NearestIsFirstLeast(v, t.centroids, dist, c);
      }
    }
  }

  ghost predicate HomeCell(t: Tables, c: Cell, dist: Distance)
    requires t.trained ==> t.centroids != []
  {
    && (if t.trained then 0 <= c.centroid < |t.centroids| else c.centroid == UNASSIGNED)
    && (forall s :: 0 <= s < |c.slots| && c.slots[s].valid ==> Home(t, c.slots[s].row.vec, dist) == c.centroid)
  }

  /** Every cell carries the centroid its rows are assigned to. */
  ghost predicate Assigned(t: Tables, dist: Distance) {
    && (t.trained ==> t.centroids != [])
    && (forall i :: 0 <= i < |t.cells| ==> HomeCell(t, t.cells[i], dist))
  }

  /** A rowid occupies exactly one (cell, slot), and reading it back finds its vector. */
  lemma OnePlacePerRow(t: Tables, row: Row)
    requires Coherent(t)
    ensures row in multiset(Live(t.cells)) <==> GetVector(t, row.rowid) == Some(row.vec)
    ensures forall i: nat, s: nat, j: nat, u: nat ::
              Points(t, row.rowid, Place(i, s)) && Points(t, row.rowid, Place(j, u)) ==> i == j && s == u
  {
    if row in multiset(Live(t.cells)) {
      var i, s := LiveAt(t.cells, row);
      assert MapsTo(t, row.rowid, Place(i, s));
    }
    if row.rowid in t.rowMap {
      var p := t.rowMap[row.rowid];
      assert Points(t, row.rowid, p);
      RowIsLive(t.cells, p.cell, p.slot);
    }
    forall i: nat, s: nat, j: nat, u: nat | Points(t, row.rowid, Place(i, s)) && Points(t, row.rowid, Place(j, u))
      ensures i == j && s == u
    {
      assert MapsTo(t, row.rowid, Place(i, s)) && MapsTo(t, row.rowid, Place(j, u));
    }
  }

  function GetVector(t: Tables, r: int): Option<Vec> {
    if r !in t.rowMap then None else
      var p := t.rowMap[r];
      if p.cell < |t.cells| && p.slot < |t.cells[p.cell].slots| then Some(t.cells[p.cell].slots[p.slot].row.vec)
          else None
  }

  // ---- insert ---------------------------------------------------------------------------------

  predicate HasRoom(c: Cell, centroid: int) {
    c.centroid == centroid && c.n < CELL_MAX
  }

  /** What the unordered one-row query may answer, or a new cell when it finds none. */
  ghost predicate MayOpen(t: Tables, centroid: int, i: nat) {
    if i < |t.cells| then HasRoom(t.cells[i], centroid)
    else i == |t.cells| && forall j :: 0 <= j < |t.cells| ==> !HasRoom(t.cells[j], centroid)
  }

  function NewCell(centroid: int): Cell {
    Cell(centroid, 0, seq(CELL_MAX, _ => FREE))
  }

  function Opened(t: Tables, centroid: int, i: nat): (u: Tables)
    requires i <= |t.cells|
    ensures i < |u.cells|
  {
    if i < |t.cells| then t else t.(cells := t.cells + [NewCell(centroid)])
  }

  predicate SlotInRange(c: Cell) {
    0 <= c.n < |c.slots|
  }

  /** Write the row at slot `n`; the map insert is ignored when the rowid is already there.
      A counter out of range would address no slot; no reachable index has one. */
  function Put(t: Tables, i: nat, row: Row): Tables
    requires i < |t.cells|
  {
    var c := t.cells[i];
    if !SlotInRange(c) then t else t.(cells := t.cells[i := c.(n := c.n + 1, slots := c.slots[c.n := Slot(true, row)])],
       rowMap := if row.rowid in t.rowMap then t.rowMap else t.rowMap[row.rowid := Place(i, c.n)])
  }

  function Inserted(t: Tables, row: Row, i: nat, dist: Distance): Tables
    requires (t.trained ==> t.centroids != []) && i <= |t.cells|
  {
    Put(Opened(t, Home(t, row.vec, dist), i), i, row)
  }

  lemma {:induction false} AllFree(slots: seq<Slot>)
    requires forall s :: 0 <= s < |slots| ==> !slots[s].valid
    ensures LiveSlots(slots) == []
  {
    if slots != [] {
      AllFree(slots[..|slots| - 1]);
    }
  }

  lemma OpenedKeeps(t: Tables, centroid: int, i: nat)
    requires i <= |t.cells| && Coherent(t)
    ensures var u := Opened(t, centroid, i);
            Coherent(u) && Live(u.cells) == Live(t.cells) && (Packed(t) ==> Packed(u))
  {
    if i == |t.cells| {
      var c := NewCell(centroid);
      AddedCellLive(t, c);
      AddedCellMapped(t, c);
      AddedCellListed(t, c);
    }
  }

  lemma AddedCellLive(t: Tables, c: Cell)
    requires c.n == 0 && |c.slots| == CELL_MAX && forall s :: 0 <= s < |c.slots| ==> !c.slots[s].valid
    ensures var u := t.(cells := t.cells + [c]);
            Live(u.cells) == Live(t.cells) && (Shaped(t) ==> Shaped(u)) && (Packed(t) ==> Packed(u))
  {
    AllFree(c.slots);
    LiveSnoc(t.cells, c);
    assert Live(t.cells) + [] == Live(t.cells);
    assert CellShape(c) && PackedCell(c);
  }

  lemma AddedCellMapped(t: Tables, c: Cell)
    requires Mapped(t)
    ensures Mapped(t.(cells := t.cells + [c]))
  {
    forall r | r in t.rowMap
      ensures Points(t.(cells := t.cells + [c]), r, t.rowMap[r])
    {
      assert Points(t, r, t.rowMap[r]);
    }
  }

  lemma AddedCellListed(t: Tables, c: Cell)
    requires Listed(t) && forall s :: 0 <= s < |c.slots| ==> !c.slots[s].valid
    ensures Listed(t.(cells := t.cells + [c]))
  {
    var u := t.(cells := t.cells + [c]);
    forall i: nat, s: nat | i < |u.cells| && s < |u.cells[i].slots| && u.cells[i].slots[s].valid
      ensures MapsTo(u, u.cells[i].slots[s].row.rowid, Place(i, s))
    {
      assert i < |t.cells| && u.cells[i] == t.cells[i];
    }
  }

  lemma PutCounts(t: Tables, i: nat, row: Row)
    requires i < |t.cells| && SlotInRange(t.cells[i])
    ensures var c := t.cells[i];
            var u := Put(t, i, row);
            && multiset(Live(u.cells)) + One(c.slots[c.n]) == multiset(Live(t.cells)) + multiset{row}
            && multiset(LiveSlots(u.cells[i].slots)) + One(c.slots[c.n]) == multiset(LiveSlots(c.slots)) + multiset{row}
  {
    var c := t.cells[i];
    OneOf(row);
    SlotSet(t.cells, i, c.n, Slot(true, row), Put(t, i, row).cells[i]);
  }

  /** Overwriting one slot of one cell swaps its row for the new one in the whole index. */
  lemma SlotSet(cells: seq<Cell>, i: nat, s: nat, x: Slot, d: Cell)
    requires i < |cells| && s < |cells[i].slots| && d.slots == cells[i].slots[s := x]
    ensures multiset(Live(cells[i := d])) + One(cells[i].slots[s]) == multiset(Live(cells)) + One(x)
    ensures multiset(LiveSlots(d.slots)) + One(cells[i].slots[s]) == multiset(LiveSlots(cells[i].slots)) + One(x)
  {
    hide Live, LiveSlots, One;
    LiveSlotsSet(cells[i].slots, s, x);
    LiveSet(cells, i, d);
    BagShift(multiset(Live(cells[i := d])), multiset(LiveSlots(cells[i].slots)), multiset(Live(cells)),
             multiset(LiveSlots(d.slots)), One(cells[i].slots[s]), One(x));
  }

  lemma OneOf(row: Row)
    ensures One(Slot(true, row)) == multiset{row} && One(Slot(false, row)) == multiset{}
  {
  }

  lemma BagShift(a: multiset<Row>, b: multiset<Row>, c: multiset<Row>, d: multiset<Row>, x: multiset<Row>,
                 y: multiset<Row>)
    requires a + b == c + d && d + x == b + y
    ensures a + x == c + y
  {
    assert forall r :: (a + b)[r] == (c + d)[r] && (d + x)[r] == (b + y)[r] ==> (a + x)[r] == (c + y)[r];
    assert forall r :: (a + x)[r] == (c + y)[r];
  }

  lemma BagSizes(s: seq<Row>, t: seq<Row>, x: multiset<Row>, y: multiset<Row>)
    requires multiset(s) + x == multiset(t) + y
    ensures |s| + |x| == |t| + |y|
  {
    assert |multiset(s) + x| == |multiset(s)| + |x|;
    assert |multiset(t) + y| == |multiset(t)| + |y|;
  }

  /** An insert keeps the index coherent exactly when the append slot is free and the
      rowid is new; then it adds that one row. */
  lemma PutKeepsExactly(t: Tables, i: nat, row: Row)
    requires Coherent(t) && i < |t.cells| && SlotInRange(t.cells[i])
    ensures var c := t.cells[i];
            Coherent(Put(t, i, row)) <==> !c.slots[c.n].valid && row.rowid !in t.rowMap
  {
    var c := t.cells[i];
    var u := Put(t, i, row);
    PutCounts(t, i, row);
    if c.slots[c.n].valid {
      BagSizes(LiveSlots(u.cells[i].slots), LiveSlots(c.slots), One(c.slots[c.n]), multiset{row});
      assert CellShape(t.cells[i]);
      assert !CellShape(u.cells[i]);
    } else if row.rowid in t.rowMap {
      assert Points(t, row.rowid, t.rowMap[row.rowid]);
      assert t.rowMap[row.rowid] != Place(i, c.n);
      assert u.cells[i].slots[c.n].valid && !MapsTo(u, row.rowid, Place(i, c.n));
      assert !Listed(u);
    } else {
      PutKeeps(t, i, row);
    }
  }

  lemma PutKeeps(t: Tables, i: nat, row: Row)
    requires Coherent(t) && i < |t.cells| && SlotInRange(t.cells[i])
    requires !t.cells[i].slots[t.cells[i].n].valid && row.rowid !in t.rowMap
    ensures Coherent(Put(t, i, row))
    ensures multiset(Live(Put(t, i, row).cells)) == multiset(Live(t.cells)) + multiset{row}
    ensures Packed(t) ==> Packed(Put(t, i, row))
  {
    PutCounts(t, i, row);
    PutKeepsShape(t, i, row);
    PutKeepsMap(t, i, row);
  }

  lemma CellReplaced(t: Tables, u: Tables, i: nat)
    requires Shaped(t) && i < |t.cells| == |u.cells| && CellShape(u.cells[i])
    requires u.cells == t.cells[i := u.cells[i]]
    ensures Shaped(u)
    ensures Packed(t) && PackedCell(u.cells[i]) ==> Packed(u)
  {
    assert forall j :: 0 <= j < |u.cells| && j != i ==> u.cells[j] == t.cells[j];
  }

  lemma PutSizes(t: Tables, i: nat, row: Row)
    requires Coherent(t) && i < |t.cells| && SlotInRange(t.cells[i])
    requires !t.cells[i].slots[t.cells[i].n].valid
    ensures |LiveSlots(Put(t, i, row).cells[i].slots)| == |LiveSlots(t.cells[i].slots)| + 1
    ensures |Live(Put(t, i, row).cells)| == |Live(t.cells)| + 1
  {
    PutCounts(t, i, row);
    BagSizes(LiveSlots(Put(t, i, row).cells[i].slots), LiveSlots(t.cells[i].slots), multiset{}, multiset{row});
    BagSizes(Live(Put(t, i, row).cells), Live(t.cells), multiset{}, multiset{row});
  }

  lemma PutKeepsShape(t: Tables, i: nat, row: Row)
    requires Coherent(t) && i < |t.cells| && SlotInRange(t.cells[i])
    requires !t.cells[i].slots[t.cells[i].n].valid && row.rowid !in t.rowMap
    ensures Shaped(Put(t, i, row)) && |Put(t, i, row).rowMap| == |Live(Put(t, i, row).cells)|
    ensures Packed(t) ==> Packed(Put(t, i, row))
  {
    var u := Put(t, i, row);
    PutSizes(t, i, row);
    assert CellShape(t.cells[i]);
    assert PackedCell(t.cells[i]) ==> PackedCell(u.cells[i]);
    CellReplaced(t, u, i);
  }

  lemma PutKeepsMap(t: Tables, i: nat, row: Row)
    requires Mapped(t) && Listed(t) && i < |t.cells| && SlotInRange(t.cells[i])
    requires !t.cells[i].slots[t.cells[i].n].valid && row.rowid !in t.rowMap
    ensures Mapped(Put(t, i, row)) && Listed(Put(t, i, row))
  {
    var n := t.cells[i].n;
    var u := Put(t, i, row);
    forall r | r in u.rowMap
      ensures Points(u, r, u.rowMap[r])
    {
      if r != row.rowid {
        assert Points(t, r, t.rowMap[r]);
      }
    }
    forall j: nat, s: nat | j < |u.cells| && s < |u.cells[j].slots| && u.cells[j].slots[s].valid
      ensures MapsTo(u, u.cells[j].slots[s].row.rowid, Place(j, s))
    {
      if j != i || s != n {
        assert u.cells[j].slots[s] == t.cells[j].slots[s];
        assert MapsTo(t, t.cells[j].slots[s].row.rowid, Place(j, s));
      }
    }
  }

  lemma InsertKeeps(t: Tables, row: Row, i: nat, dist: Distance)
    requires Coherent(t) && Assigned(t, dist) && Packed(t) && row.rowid !in t.rowMap
               && MayOpen(t, Home(t, row.vec, dist), i)
    ensures i < |t.cells| ==> SlotInRange(t.cells[i])
    ensures var u := Inserted(t, row, i, dist);
            && Coherent(u) && Assigned(u, dist) && Packed(u)
            && multiset(Live(u.cells)) == multiset(Live(t.cells)) + multiset{row}
  {
    InsertLandsFree(t, row, i, dist);
    InsertKeepsCoherent(t, row, i, dist);
  }

  /** In a packed index the append slot is always free. */
  lemma InsertLandsFree(t: Tables, row: Row, i: nat, dist: Distance)
    requires Coherent(t) && Assigned(t, dist) && Packed(t) && MayOpen(t, Home(t, row.vec, dist), i)
    ensures i < |t.cells| ==> SlotInRange(t.cells[i]) && !t.cells[i].slots[t.cells[i].n].valid
  {
    if i < |t.cells| {
      assert CellShape(t.cells[i]) && PackedCell(t.cells[i]);
    }
  }

  lemma InsertKeepsCoherent(t: Tables, row: Row, i: nat, dist: Distance)
    requires Coherent(t) && Assigned(t, dist) && row.rowid !in t.rowMap && MayOpen(t, Home(t, row.vec, dist), i)
    requires i < |t.cells| ==> SlotInRange(t.cells[i]) && !t.cells[i].slots[t.cells[i].n].valid
    ensures var u := Inserted(t, row, i, dist);
            && Coherent(u) && Assigned(u, dist) && (Packed(t) ==> Packed(u))
            && multiset(Live(u.cells)) == multiset(Live(t.cells)) + multiset{row}
  {
    var c := Home(t, row.vec, dist);
    var o := Opened(t, c, i);
    OpenedKeeps(t, c, i);
    PutKeeps(o, i, row);
    InsertKeepsAssigned(t, row, i, dist);
  }

  lemma InsertKeepsAssigned(t: Tables, row: Row, i: nat, dist: Distance)
    requires Assigned(t, dist) && MayOpen(t, Home(t, row.vec, dist), i)
    ensures Assigned(Inserted(t, row, i, dist), dist)
  {
    var u := Inserted(t, row, i, dist);
    forall j | 0 <= j < |u.cells|
      ensures HomeCell(u, u.cells[j], dist)
    {
      if j < |t.cells| {
        assert HomeCell(t, t.cells[j], dist);
      }
    }
  }

  // ---- delete ---------------------------------------------------------------------------------

  /** Clear the validity bit, count one less, forget the rowid. */
  function Deleted(t: Tables, r: int): Tables {
    if r !in t.rowMap then t else
      var p := t.rowMap[r];
      if p.cell >= |t.cells| || p.slot >= |t.cells[p.cell].slots| then t.(rowMap := t.rowMap - {r}) else
        var c := t.cells[p.cell];
        t.(cells := t.cells[p.cell := c.(n := c.n - 1, slots := c.slots[p.slot := c.slots[p.slot].(valid := false)])],
           rowMap := t.rowMap - {r})
  }

  /** Deleting keeps the index coherent and removes that one row. */
  lemma DeleteKeeps(t: Tables, r: int)
    requires Coherent(t)
    ensures Coherent(Deleted(t, r))
    ensures r !in Deleted(t, r).rowMap
    ensures r in t.rowMap ==>
              exists row: Row :: row.rowid == r && multiset(Live(Deleted(t, r).cells)) + multiset{row}
                  == multiset(Live(t.cells))
  {
    if r in t.rowMap {
      assert Points(t, r, t.rowMap[r]);
      DeleteKeepsShape(t, r);
      DeleteKeepsMap(t, r);
      DeleteCounts(t, r);
    }
  }

  lemma DeleteSizes(t: Tables, r: int)
    requires Coherent(t) && r in t.rowMap && Points(t, r, t.rowMap[r])
    ensures var p := t.rowMap[r];
            && |LiveSlots(Deleted(t, r).cells[p.cell].slots)| == |LiveSlots(t.cells[p.cell].slots)| - 1
            && |Live(Deleted(t, r).cells)| == |Live(t.cells)| - 1
  {
    var p := t.rowMap[r];
    var row := t.cells[p.cell].slots[p.slot].row;
    DeleteCounts(t, r);
    BagSizes(LiveSlots(t.cells[p.cell].slots), LiveSlots(Deleted(t, r).cells[p.cell].slots), multiset{}, multiset{row});
    BagSizes(Live(t.cells), Live(Deleted(t, r).cells), multiset{}, multiset{row});
  }

  lemma DeleteKeepsShape(t: Tables, r: int)
    requires Coherent(t) && r in t.rowMap && Points(t, r, t.rowMap[r])
    ensures Shaped(Deleted(t, r)) && |Deleted(t, r).rowMap| == |Live(Deleted(t, r).cells)|
  {
    var u := Deleted(t, r);
    DeleteSizes(t, r);
    assert CellShape(t.cells[t.rowMap[r].cell]);
    CellReplaced(t, u, t.rowMap[r].cell);
    assert u.rowMap.Keys == t.rowMap.Keys - {r};
    assert |u.rowMap| == |u.rowMap.Keys| && |t.rowMap| == |t.rowMap.Keys|;
  }

  lemma DeleteKeepsMap(t: Tables, r: int)
    requires Mapped(t) && Listed(t) && r in t.rowMap && Points(t, r, t.rowMap[r])
    ensures Mapped(Deleted(t, r)) && Listed(Deleted(t, r))
  {
    var p := t.rowMap[r];
    var u := Deleted(t, r);
    forall q | q in u.rowMap
      ensures Points(u, q, u.rowMap[q])
    {
      assert Points(t, q, t.rowMap[q]);
    }
    forall j: nat, s: nat | j < |u.cells| && s < |u.cells[j].slots| && u.cells[j].slots[s].valid
      ensures MapsTo(u, u.cells[j].slots[s].row.rowid, Place(j, s))
    {
      assert j != p.cell || s != p.slot;
      assert u.cells[j].slots[s] == t.cells[j].slots[s];
      assert MapsTo(t, t.cells[j].slots[s].row.rowid, Place(j, s));
    }
  }

  lemma DeleteCounts(t: Tables, r: int)
    requires r in t.rowMap && t.rowMap[r].cell < |t.cells| && t.rowMap[r].slot < |t.cells[t.rowMap[r].cell].slots|
    ensures var p := t.rowMap[r];
            var u := Deleted(t, r);
            var was := One(t.cells[p.cell].slots[p.slot]);
            && multiset(Live(u.cells)) + was == multiset(Live(t.cells))
            && multiset(LiveSlots(u.cells[p.cell].slots)) + was == multiset(LiveSlots(t.cells[p.cell].slots))
  {
    hide Live, LiveSlots, One;
    var p := t.rowMap[r];
    var c := t.cells[p.cell];
    var x := c.slots[p.slot].(valid := false);
    OneOf(c.slots[p.slot].row);
    SlotSet(t.cells, p.cell, p.slot, x, Deleted(t, r).cells[p.cell]);
    PlusNothing(multiset(Live(t.cells)));
    PlusNothing(multiset(LiveSlots(c.slots)));
  }

  lemma PlusNothing(b: multiset<Row>)
    ensures b + multiset{} == b
  {
  }

  /** It keeps the valid slots a prefix exactly when the row was the last of its cell. */
  lemma DeleteKeepsPackedExactly(t: Tables, r: int)
    requires Coherent(t) && Packed(t)
    ensures Packed(Deleted(t, r)) <==>
              (r in t.rowMap ==> t.rowMap[r].cell < |t.cells| && t.rowMap[r].slot == t.cells[t.rowMap[r].cell].n - 1)
  {
    if r in t.rowMap {
      var p := t.rowMap[r];
      var u := Deleted(t, r);
      assert Points(t, r, p);
      var c := t.cells[p.cell];
      assert PackedCell(c) && CellShape(c);
      LiveSlotsBound(c.slots);
      if p.slot == c.n - 1 {
        assert PackedCell(u.cells[p.cell]);
        assert forall j :: 0 <= j < |u.cells| && j != p.cell ==> u.cells[j] == t.cells[j];
      } else {
        assert u.cells[p.cell].slots[c.n - 1].valid;
        assert !PackedCell(u.cells[p.cell]);
      }
    }
  }

  lemma DeleteKeepsAssigned(t: Tables, r: int, dist: Distance)
    requires Assigned(t, dist)
    ensures Assigned(Deleted(t, r), dist)
  {
    var u := Deleted(t, r);
    forall i | 0 <= i < |u.cells|
      ensures HomeCell(u, u.cells[i], dist)
    {
      assert HomeCell(t, t.cells[i], dist);
    }
  }
}
