/** Rebuilding the cells of an IVF index: load every live row, assign each to its nearest
    centroid, and write the groups out in cells of at most 64 rows. */
module IvfRebuild {
  import opened Wrappers
  import opened IvfCells

  // ---- loading ------------------------------------------------------------------------------

  function Total(cells: seq<Cell>): int {
    if cells == [] then 0 else Total(cells[..|cells| - 1]) + cells[|cells| - 1].n
  }

  /** Valid rows of the cells whose counter is not zero. */
  function Scanned(cells: seq<Cell>): (rows: seq<Row>) {
    if cells == [] then [] else
      var n := |cells| - 1;
      Scanned(cells[..n]) + (if cells[n].n == 0 then [] else LiveSlots(cells[n].slots))
  }

  function Cut(rows: seq<Row>, total: int): (r: seq<Row>)
    ensures |r| <= |rows|
  {
    if total <= 0 then [] else if |rows| <= total then rows else rows[..total]
  }

  /** No more rows than the counters add up to. */
  function Loaded(cells: seq<Cell>): (rows: seq<Row>) {
    Cut(Scanned(cells), Total(cells))
  }

  lemma CutSnoc(rows: seq<Row>, x: Row, total: int)
    ensures Cut(rows + [x], total) == if |Cut(rows, total)| < total then Cut(rows, total) + [x] else Cut(rows, total)
  {
  }

  lemma CutFull(rows: seq<Row>, more: seq<Row>, total: int)
    requires |Cut(rows, total)| >= total
    ensures Cut(rows + more, total) == Cut(rows, total)
  {
  }

  method SumCounts(cells: seq<Cell>) returns (total: int)
    ensures total == Total(cells)
  {
    total := 0;
    for i := 0 to |cells|
      invariant total == Total(cells[..i])
    {
      assert cells[..i + 1][..i] == cells[..i];
      total := total + cells[i].n;
    }
    assert cells[..|cells|] == cells;
  }

  method LoadCell(slots: seq<Slot>, total: int, rows: seq<Row>, ghost all: seq<Row>) returns (r: seq<Row>)
    requires rows == Cut(all, total)
    ensures r == Cut(all + LiveSlots(slots), total)
  {
    r := rows;
    assert all + LiveSlots(slots[..0]) == all;
    for i := 0 to |slots|
      invariant r == Cut(all + LiveSlots(slots[..i]), total)
    {
      ghost var so := all + LiveSlots(slots[..i]);
      assert slots[..i + 1][..i] == slots[..i];
      if |r| >= total {
        LiveSlotsPrefix(slots, i);
        CutFull(so, LiveSlots(slots)[|LiveSlots(slots[..i])|..], total);
        assert so + LiveSlots(slots)[|LiveSlots(slots[..i])|..] == all + LiveSlots(slots);
        return;
      }
      if slots[i].valid {
        CutSnoc(so, slots[i].row, total);
        assert all + LiveSlots(slots[..i + 1]) == so + [slots[i].row];
        r := r + [slots[i].row];
      } else {
        assert LiveSlots(slots[..i + 1]) == LiveSlots(slots[..i]);
      }
    }
    assert slots[..|slots|] == slots;
  }

  lemma {:induction false} LiveSlotsPrefix(slots: seq<Slot>, i: nat)
    requires i <= |slots|
    ensures LiveSlots(slots[..i]) <= LiveSlots(slots)
  {
    if i < |slots| {
      LiveSlotsPrefix(slots[..|slots| - 1], i);
      assert slots[..|slots| - 1][..i] == slots[..i];
    } else {
      assert slots[..i] == slots;
    }
  }

  method LoadAll(cells: seq<Cell>) returns (rows: seq<Row>)
    ensures rows == Loaded(cells)
  {
    var total := SumCounts(cells);
    rows := [];
    for c := 0 to |cells|
      invariant rows == Cut(Scanned(cells[..c]), total)
    {
      assert cells[..c + 1][..c] == cells[..c];
      if cells[c].n == 0 {
        assert Scanned(cells[..c + 1]) == Scanned(cells[..c]);
      } else {
        rows := LoadCell(cells[c].slots, total, rows, Scanned(cells[..c]));
      }
    }
    assert cells[..|cells|] == cells;
  }

  // ---- assigning and filling -----------------------------------------------------------------

  function Assignments(rows: seq<Row>, centroids: seq<Vec>, dist: Distance): (a: seq<nat>)
    requires centroids != []
    ensures |a| == |rows| && forall i :: 0 <= i < |rows| ==> a[i] == Nearest(rows[i].vec, centroids, dist)
  {
    seq(|rows|, i requires 0 <= i < |rows| => Nearest(rows[i].vec, centroids, dist))
  }

  /** Map inserts for the first `k` rows of a cell; a rowid already present is skipped. */
  function MapRows(m: map<int, Place>, buf: seq<Row>, cell: nat, k: nat): map<int, Place>
    requires k <= |buf|
  {
    if k == 0 then m else
      var b := MapRows(m, buf, cell, k - 1);
      if buf[k - 1].rowid in b then b else b[buf[k - 1].rowid := Place(cell, k - 1)]
  }

  function FilledCell(c: int, buf: seq<Row>): (cell: Cell)
    requires |buf| <= CELL_MAX
  {
    Cell(c, |buf|, seq(CELL_MAX, s requires 0 <= s < CELL_MAX => if s < |buf| then Slot(true, buf[s]) else FREE))
  }

  function Flush(t: Tables, c: int, buf: seq<Row>): Tables
    requires |buf| <= CELL_MAX
  {
    t.(cells := t.cells + [FilledCell(c, buf)], rowMap := MapRows(t.rowMap, buf, |t.cells|, |buf|))
  }

  datatype Filling = Filling(t: Tables, buf: seq<Row>)

  /** One centroid's pass over the first `i` rows, flushing each time 64 are buffered. */
  function ScanRows(t: Tables, c: int, rows: seq<Row>, assign: seq<nat>, i: nat): (f: Filling)
    requires |assign| == |rows| && i <= |rows|
    ensures |f.buf| <= CELL_MAX
  {
    if i == 0 then Filling(t, []) else
      var f := ScanRows(t, c, rows, assign, i - 1);
      if assign[i - 1] != c then f
      else if |f.buf| >= CELL_MAX then Filling(Flush(f.t, c, f.buf), [rows[i - 1]])
      else f.(buf := f.buf + [rows[i - 1]])
  }

  function FlushRest(f: Filling, c: int): Tables
    requires |f.buf| <= CELL_MAX
  {
    if |f.buf| > 0 then Flush(f.t, c, f.buf) else f.t
  }

  /** The cells of the first `c` centroids. */
  function FillCells(t: Tables, rows: seq<Row>, assign: seq<nat>, c: nat): Tables
    requires |assign| == |rows|
  {
    if c == 0 then t else
      FlushRest(ScanRows(FillCells(t, rows, assign, c - 1), c - 1, rows, assign, |rows|), c - 1)
  }

  function Rebuilt(rows: seq<Row>, centroids: seq<Vec>, dist: Distance): Tables
    requires centroids != []
  {
    FillCells(Tables(true, centroids, [], map[]), rows, Assignments(rows, centroids, dist), |centroids|)
  }

  // ---- rowids --------------------------------------------------------------------------------

  ghost function Ids(rows: seq<Row>): (ids: set<int>) {
    if rows == [] then {} else Ids(rows[..|rows| - 1]) + {rows[|rows| - 1].rowid}
  }

  ghost predicate Distinct(rows: seq<Row>) {
    forall i, j :: 0 <= i < j < |rows| ==> rows[i].rowid != rows[j].rowid
  }

  lemma {:induction false} IdsAt(rows: seq<Row>, i: nat)
    requires i < |rows|
    ensures rows[i].rowid in Ids(rows)
  {
    if i < |rows| - 1 {
      IdsAt(rows[..|rows| - 1], i);
    }
  }

  lemma {:induction false} IdsFind(rows: seq<Row>, r: int) returns (i: nat)
    requires r in Ids(rows)
    ensures i < |rows| && rows[i].rowid == r
  {
    var n := |rows| - 1;
    if rows[n].rowid == r {
      i := n;
    } else {
      i := IdsFind(rows[..n], r);
    }
  }

  lemma {:induction false} DistinctByCount(rows: seq<Row>)
    ensures |Ids(rows)| <= |rows|
    ensures |Ids(rows)| == |rows| ==> Distinct(rows)
  {
    if rows != [] {
      var n := |rows| - 1;
      DistinctByCount(rows[..n]);
      if |Ids(rows)| == |rows| {
        forall i | 0 <= i < n
          ensures rows[i].rowid != rows[n].rowid
        {
          IdsAt(rows[..n], i);
        }
        assert forall i, j :: 0 <= i < j < n ==> rows[..n][i].rowid != rows[..n][j].rowid;
      }
    }
  }

  lemma DistinctSnoc(rows: seq<Row>, x: Row)
    requires Distinct(rows) && x.rowid !in Ids(rows)
    ensures Distinct(rows + [x])
  {
    forall i | 0 <= i < |rows|
      ensures rows[i].rowid != x.rowid
    {
      IdsAt(rows, i);
    }
  }

  lemma InLive(s: seq<Row>, i: nat)
    requires i < |s|
    ensures s[i] in multiset(s)
  {
  }

  lemma LiveIds(t: Tables)
    requires Coherent(t)
    ensures Ids(Live(t.cells)) == t.rowMap.Keys
  {
    var rows := Live(t.cells);
    hide Ids, Live, LiveSlots, Shaped;
    forall r | r in Ids(rows)
      ensures r in t.rowMap
    {
      var k := IdsFind(rows, r);
      InLive(rows, k);
      var i, s := LiveAt(t.cells, rows[k]);
      assert MapsTo(t, r, Place(i, s));
    }
    forall r | r in t.rowMap
      ensures r in Ids(rows)
    {
      var p := t.rowMap[r];
      assert Points(t, r, p);
      RowIsLive(t.cells, p.cell, p.slot);
      var k :| 0 <= k < |rows| && rows[k] == t.cells[p.cell].slots[p.slot].row;
      IdsAt(rows, k);
    }
  }

  // ---- one flush -----------------------------------------------------------------------------

  ghost predicate FreshRows(m: map<int, Place>, buf: seq<Row>) {
    Distinct(buf) && forall i :: 0 <= i < |buf| ==> buf[i].rowid !in m
  }

  /** `b` is `m` with the first `k` rows of the buffer placed in `cell`. */
  ghost predicate Adds(b: map<int, Place>, m: map<int, Place>, buf: seq<Row>, cell: nat, k: nat)
    requires k <= |buf|
  {
    && (forall r :: r in m ==> r in b && b[r] == m[r])
    && (forall i: nat :: i < k ==> buf[i].rowid in b && b[buf[i].rowid] == Place(cell, i))
    && (forall r :: r in b && r !in m ==> r in Ids(buf[..k]))
  }

  lemma {:induction false} MapRowsAdds(m: map<int, Place>, buf: seq<Row>, cell: nat, k: nat)
    requires k <= |buf| && FreshRows(m, buf)
    ensures Adds(MapRows(m, buf, cell, k), m, buf, cell, k)
    ensures |MapRows(m, buf, cell, k)| == |m| + k
  {
    hide Adds, FreshRows, Ids;
    if k == 0 {
      AddsNone(m, buf, cell);
    } else {
      MapRowsAdds(m, buf, cell, k - 1);
      var b := MapRows(m, buf, cell, k - 1);
      AddsOne(b, m, buf, cell, k - 1);
      assert MapRows(m, buf, cell, k) == b[buf[k - 1].rowid := Place(cell, k - 1)];
    }
  }

  lemma AddsNone(m: map<int, Place>, buf: seq<Row>, cell: nat)
    ensures Adds(m, m, buf, cell, 0)
  {
  }

  lemma AddsOne(b: map<int, Place>, m: map<int, Place>, buf: seq<Row>, cell: nat, k: nat)
    requires k < |buf| && FreshRows(m, buf) && Adds(b, m, buf, cell, k)
    ensures buf[k].rowid !in b
    ensures Adds(b[buf[k].rowid := Place(cell, k)], m, buf, cell, k + 1)
    ensures |b[buf[k].rowid := Place(cell, k)]| == |b| + 1
  {
    NotYetAdded(b, m, buf, cell, k);
    assert buf[..k + 1][..k] == buf[..k];
    assert Ids(buf[..k + 1]) == Ids(buf[..k]) + {buf[k].rowid};
    MapGrows(b, buf[k].rowid, Place(cell, k));
  }

  lemma MapGrows(b: map<int, Place>, r: int, p: Place)
    requires r !in b
    ensures |b[r := p]| == |b| + 1
  {
    assert b[r := p].Keys == b.Keys + {r};
    assert |b[r := p]| == |b[r := p].Keys| && |b| == |b.Keys|;
  }

  lemma NotYetAdded(b: map<int, Place>, m: map<int, Place>, buf: seq<Row>, cell: nat, k: nat)
    requires k < |buf| && FreshRows(m, buf) && Adds(b, m, buf, cell, k)
    ensures buf[k].rowid !in b
  {
    if buf[k].rowid in b {
      var i := IdsFind(buf[..k], buf[k].rowid);
      assert false;
    }
  }

  lemma {:induction false} FilledLive(buf: seq<Row>, slots: seq<Slot>)
    requires |buf| <= |slots| && forall s :: 0 <= s < |slots| ==> slots[s] == if s < |buf| then Slot(true, buf[s])
               else FREE
    ensures LiveSlots(slots) == buf
  {
    if slots != [] {
      var n := |slots| - 1;
      if |buf| == |slots| {
        FilledLive(buf[..n], slots[..n]);
      } else {
        FilledLive(buf, slots[..n]);
      }
    }
  }

  /** Flushing fresh rows keeps the index coherent and packed. */
  lemma FlushKeeps(t: Tables, c: int, buf: seq<Row>)
    requires Coherent(t) && Packed(t) && |buf| <= CELL_MAX && Distinct(Live(t.cells) + buf)
    ensures Coherent(Flush(t, c, buf)) && Packed(Flush(t, c, buf))
    ensures Live(Flush(t, c, buf).cells) == Live(t.cells) + buf
  {
    var cell := FilledCell(c, buf);
    FilledLive(buf, cell.slots);
    LiveSnoc(t.cells, cell);
    assert CellShape(cell) && PackedCell(cell);
    FreshBuffer(t, buf);
    MapRowsAdds(t.rowMap, buf, |t.cells|, |buf|);
    CellAppended(t, Flush(t, c, buf), cell);
    FlushMapped(t, c, buf);
    FlushListed(t, c, buf);
  }

  lemma CellAppended(t: Tables, u: Tables, cell: Cell)
    requires Shaped(t) && Packed(t) && CellShape(cell) && PackedCell(cell) && u.cells == t.cells + [cell]
    ensures Shaped(u) && Packed(u)
  {
  }

  lemma DistinctRight(a: seq<Row>, b: seq<Row>)
    requires Distinct(a + b)
    ensures Distinct(b)
  {
    forall i, j | 0 <= i < j < |b|
      ensures b[i].rowid != b[j].rowid
    {
      assert (a + b)[|a| + i] == b[i] && (a + b)[|a| + j] == b[j];
    }
  }

  lemma DistinctAcross(a: seq<Row>, b: seq<Row>, i: nat)
    requires Distinct(a + b) && i < |b|
    ensures b[i].rowid !in Ids(a)
  {
    if b[i].rowid in Ids(a) {
      var k := IdsFind(a, b[i].rowid);
      SameIdTwice(a + b, k, |a| + i);
    }
  }

  lemma SameIdTwice(rows: seq<Row>, i: nat, j: nat)
    requires i < j < |rows| && rows[i].rowid == rows[j].rowid
    ensures !Distinct(rows)
  {
  }

  lemma FreshBuffer(t: Tables, buf: seq<Row>)
    requires Coherent(t) && Distinct(Live(t.cells) + buf)
    ensures FreshRows(t.rowMap, buf)
  {
    DistinctRight(Live(t.cells), buf);
    LiveIds(t);
    forall i | 0 <= i < |buf|
      ensures buf[i].rowid !in t.rowMap
    {
      DistinctAcross(Live(t.cells), buf, i);
    }
  }

  lemma FlushMapped(t: Tables, c: int, buf: seq<Row>)
    requires Mapped(t) && |buf| <= CELL_MAX && FreshRows(t.rowMap, buf)
    ensures Mapped(Flush(t, c, buf))
  {
    var u := Flush(t, c, buf);
    MapRowsAdds(t.rowMap, buf, |t.cells|, |buf|);
    forall r | r in u.rowMap
      ensures Points(u, r, u.rowMap[r])
    {
      if r in t.rowMap {
        assert Points(t, r, t.rowMap[r]);
      } else {
        assert buf[..|buf|] == buf;
        var i := IdsFind(buf, r);
        assert u.cells[|t.cells|].slots[i] == Slot(true, buf[i]);
      }
    }
  }

  lemma FlushListed(t: Tables, c: int, buf: seq<Row>)
    requires Listed(t) && |buf| <= CELL_MAX && FreshRows(t.rowMap, buf)
    ensures Listed(Flush(t, c, buf))
  {
    var u := Flush(t, c, buf);
    MapRowsAdds(t.rowMap, buf, |t.cells|, |buf|);
    forall i: nat, s: nat | i < |u.cells| && s < |u.cells[i].slots| && u.cells[i].slots[s].valid
      ensures MapsTo(u, u.cells[i].slots[s].row.rowid, Place(i, s))
    {
      if i < |t.cells| {
        assert u.cells[i] == t.cells[i];
        assert MapsTo(t, t.cells[i].slots[s].row.rowid, Place(i, s));
      } else {
        assert s < |buf| && u.cells[i].slots[s] == Slot(true, buf[s]);
        assert buf[s].rowid in u.rowMap;
      }
    }
  }

  // ---- the whole rebuild ----------------------------------------------------------------------

  /** Rows assigned to `c` among the first `i`, in order. */
  ghost function Members(rows: seq<Row>, assign: seq<nat>, c: int, i: nat): (m: seq<Row>)
    requires |assign| == |rows| && i <= |rows|
  {
    if i == 0 then [] else
      Members(rows, assign, c, i - 1) + (if assign[i - 1] == c then [rows[i - 1]] else [])
  }

  ghost function Grouped(rows: seq<Row>, assign: seq<nat>, c: nat): (g: seq<Row>)
    requires |assign| == |rows|
  {
    if c == 0 then [] else Grouped(rows, assign, c - 1) + Members(rows, assign, c - 1, |rows|)
  }

  lemma {:induction false} IdsConcat(a: seq<Row>, b: seq<Row>)
    ensures Ids(a + b) == Ids(a) + Ids(b)
  {
    if b == [] {
      assert a + b == a;
    } else {
      IdsConcat(a, b[..|b| - 1]);
      assert (a + b)[..|a + b| - 1] == a + b[..|b| - 1];
    }
  }

  lemma {:induction false} NotMember(rows: seq<Row>, assign: seq<nat>, c: int, m: nat, i: nat)
    requires |assign| == |rows| && m <= |rows| && i < |rows| && Distinct(rows) && (assign[i] != c || m <= i)
    ensures rows[i].rowid !in Ids(Members(rows, assign, c, m))
  {
    if m > 0 {
      NotMember(rows, assign, c, m - 1, i);
      var front := Members(rows, assign, c, m - 1);
      if assign[m - 1] == c {
        IdsConcat(front, [rows[m - 1]]);
        assert Members(rows, assign, c, m) == front + [rows[m - 1]];
        assert rows[m - 1].rowid != rows[i].rowid;
      } else {
        assert Members(rows, assign, c, m) == front;
      }
    }
  }

  lemma {:induction false} NotGrouped(rows: seq<Row>, assign: seq<nat>, c: nat, i: nat)
    requires |assign| == |rows| && i < |rows| && Distinct(rows) && c <= assign[i]
    ensures rows[i].rowid !in Ids(Grouped(rows, assign, c))
  {
    hide Grouped, Members, Ids;
    if c == 0 {
      NoneGrouped(rows, assign);
    } else {
      var d: nat := c - 1;
      NotGrouped(rows, assign, d, i);
      NotMember(rows, assign, d, |rows|, i);
      GroupedIds(rows, assign, d);
    }
  }

  lemma GroupedIds(rows: seq<Row>, assign: seq<nat>, c: nat)
    requires |assign| == |rows|
    ensures Ids(Grouped(rows, assign, c + 1)) == Ids(Grouped(rows, assign, c)) + Ids(Members(rows, assign, c, |rows|))
  {
    hide Members, Ids;
    var g, m := Grouped(rows, assign, c), Members(rows, assign, c, |rows|);
    IdsConcat(g, m);
    assert Grouped(rows, assign, c + 1) == g + m;
  }

  /** What holds while centroid `c` is being written: the index so far is coherent and
      packed, and with the buffer it holds the rows met so far, each once. */
  ghost predicate Filled(f: Filling, rows: seq<Row>, assign: seq<nat>, c: nat, i: nat)
    requires |assign| == |rows| && i <= |rows|
  {
    && Coherent(f.t) && Packed(f.t)
    && Live(f.t.cells) + f.buf == Grouped(rows, assign, c) + Members(rows, assign, c, i)
    && Distinct(Live(f.t.cells) + f.buf)
  }

  lemma FilledSnoc(f: Filling, rows: seq<Row>, assign: seq<nat>, c: nat, i: nat)
    requires |assign| == |rows| && i < |rows| && Distinct(rows) && Filled(f, rows, assign, c, i) && assign[i] == c
    ensures Distinct(Live(f.t.cells) + f.buf + [rows[i]])
    ensures Live(f.t.cells) + f.buf + [rows[i]] == Grouped(rows, assign, c) + Members(rows, assign, c, i + 1)
  {
    NotGrouped(rows, assign, c, i);
    NotMember(rows, assign, c, i, i);
    IdsConcat(Grouped(rows, assign, c), Members(rows, assign, c, i));
    DistinctSnoc(Live(f.t.cells) + f.buf, rows[i]);
  }

  lemma {:induction false} ScanKeeps(t: Tables, c: nat, rows: seq<Row>, assign: seq<nat>, i: nat)
    requires |assign| == |rows| && i <= |rows| && Distinct(rows) && Filled(Filling(t, []), rows, assign, c, 0)
    ensures Filled(ScanRows(t, c, rows, assign, i), rows, assign, c, i)
  {
    hide Filled;
    if i > 0 {
      ScanKeeps(t, c, rows, assign, i - 1);
      ScanStep(ScanRows(t, c, rows, assign, i - 1), rows, assign, c, i - 1);
    }
  }

  lemma ScanStep(f: Filling, rows: seq<Row>, assign: seq<nat>, c: nat, i: nat)
    requires |assign| == |rows| && i < |rows| && Distinct(rows) && Filled(f, rows, assign, c, i) && |f.buf| <= CELL_MAX
    ensures assign[i] != c ==> Filled(f, rows, assign, c, i + 1)
    ensures assign[i] == c && |f.buf| >= CELL_MAX ==>
              Filled(Filling(Flush(f.t, c, f.buf), [rows[i]]), rows, assign, c, i + 1)
    ensures assign[i] == c && |f.buf| < CELL_MAX ==> Filled(f.(buf := f.buf + [rows[i]]), rows, assign, c, i + 1)
  {
    if assign[i] == c {
      FilledSnoc(f, rows, assign, c, i);
      if |f.buf| >= CELL_MAX {
        ScanFlushes(f, rows, assign, c, i);
      } else {
        ScanBuffers(f, rows, assign, c, i);
      }
    } else {
      assert Members(rows, assign, c, i + 1) == Members(rows, assign, c, i);
    }
  }

  lemma ScanFlushes(f: Filling, rows: seq<Row>, assign: seq<nat>, c: nat, i: nat)
    requires |assign| == |rows| && i < |rows| && Filled(f, rows, assign, c, i) && |f.buf| <= CELL_MAX
    requires Distinct(Live(f.t.cells) + f.buf + [rows[i]])
    requires Live(f.t.cells) + f.buf + [rows[i]] == Grouped(rows, assign, c) + Members(rows, assign, c, i + 1)
    ensures Filled(Filling(Flush(f.t, c, f.buf), [rows[i]]), rows, assign, c, i + 1)
  {
    FlushKeeps(f.t, c, f.buf);
  }

  lemma ScanBuffers(f: Filling, rows: seq<Row>, assign: seq<nat>, c: nat, i: nat)
    requires |assign| == |rows| && i < |rows| && Filled(f, rows, assign, c, i)
    requires Distinct(Live(f.t.cells) + f.buf + [rows[i]])
    requires Live(f.t.cells) + f.buf + [rows[i]] == Grouped(rows, assign, c) + Members(rows, assign, c, i + 1)
    ensures Filled(f.(buf := f.buf + [rows[i]]), rows, assign, c, i + 1)
  {
    assert Live(f.t.cells) + (f.buf + [rows[i]]) == Live(f.t.cells) + f.buf + [rows[i]];
  }

  lemma FlushRestKeeps(f: Filling, rows: seq<Row>, assign: seq<nat>, c: nat)
    requires |assign| == |rows| && Filled(f, rows, assign, c, |rows|) && |f.buf| <= CELL_MAX
    ensures Filled(Filling(FlushRest(f, c), []), rows, assign, c + 1, 0)
  {
    FlushKeeps(f.t, c, f.buf);
    var u := FlushRest(f, c);
    assert Live(u.cells) == Live(f.t.cells) + f.buf;
    assert Live(u.cells) + [] == Live(u.cells);
    assert Grouped(rows, assign, c + 1) + Members(rows, assign, c + 1, 0) == Grouped(rows, assign, c + 1);
  }

  lemma NothingFilled(t: Tables, rows: seq<Row>, assign: seq<nat>)
    requires |assign| == |rows| && t.cells == [] && t.rowMap == map[]
    ensures Filled(Filling(t, []), rows, assign, 0, 0)
  {
    assert Live(t.cells) + [] == [];
  }

  lemma {:induction false} FillKeeps(t: Tables, rows: seq<Row>, assign: seq<nat>, c: nat)
    requires |assign| == |rows| && Distinct(rows) && t.cells == [] && t.rowMap == map[]
    ensures Filled(Filling(FillCells(t, rows, assign, c), []), rows, assign, c, 0)
  {
    hide Filled;
    if c == 0 {
      NothingFilled(t, rows, assign);
    } else {
      FillKeeps(t, rows, assign, c - 1);
      var u := FillCells(t, rows, assign, c - 1);
      FillStep(u, rows, assign, c - 1);
      assert FillCells(t, rows, assign, c) == FlushRest(ScanRows(u, c - 1, rows, assign, |rows|), c - 1);
    }
  }

  lemma FillStep(u: Tables, rows: seq<Row>, assign: seq<nat>, c: nat)
    requires |assign| == |rows| && Distinct(rows) && Filled(Filling(u, []), rows, assign, c, 0)
    ensures Filled(Filling(FlushRest(ScanRows(u, c, rows, assign, |rows|), c), []), rows, assign, c + 1, 0)
  {
    ScanKeeps(u, c, rows, assign, |rows|);
    FlushRestKeeps(ScanRows(u, c, rows, assign, |rows|), rows, assign, c);
  }

  // ---- every row is written exactly once -----------------------------------------------------

  ghost function Below(rows: seq<Row>, assign: seq<nat>, c: nat, i: nat): (b: multiset<Row>)
    requires |assign| == |rows| && i <= |rows|
  {
    if i == 0 then multiset{} else
      Below(rows, assign, c, i - 1) + (if assign[i - 1] < c then multiset{rows[i - 1]} else multiset{})
  }

  lemma AddedOnce(low: multiset<Row>, m: seq<Row>, x: Row)
    ensures (low + multiset(m)) + multiset{x} == (low + multiset{x}) + multiset(m)
    ensures (low + multiset(m)) + multiset{x} == low + multiset(m + [x])
  {
    assert multiset(m + [x]) == multiset(m) + multiset{x};
  }

  lemma {:induction false} BelowNext(rows: seq<Row>, assign: seq<nat>, c: nat, i: nat)
    requires |assign| == |rows| && i <= |rows|
    ensures Below(rows, assign, c + 1, i) == Below(rows, assign, c, i) + multiset(Members(rows, assign, c, i))
  {
    if i > 0 {
      BelowNext(rows, assign, c, i - 1);
      var low, m, x := Below(rows, assign, c, i - 1), Members(rows, assign, c, i - 1), rows[i - 1];
      if assign[i - 1] == c {
        AddedOnce(low, m, x);
        assert low + multiset{} == low;
      } else {
        assert m + [] == m;
        assert low + multiset(m) + multiset{} == low + multiset(m);
        assert low + multiset{x} + multiset(m) == low + multiset(m) + multiset{x};
      }
    }
  }

  lemma {:induction false} NoneBelowZero(rows: seq<Row>, assign: seq<nat>, i: nat)
    requires |assign| == |rows| && i <= |rows|
    ensures Below(rows, assign, 0, i) == multiset{}
  {
    if i > 0 {
      NoneBelowZero(rows, assign, i - 1);
    }
  }

  lemma {:induction false} GroupedBag(rows: seq<Row>, assign: seq<nat>, c: nat)
    requires |assign| == |rows|
    ensures multiset(Grouped(rows, assign, c)) == Below(rows, assign, c, |rows|)
  {
    hide *;
    if c == 0 {
      NoneBelowZero(rows, assign, |rows|);
      NoneGrouped(rows, assign);
    } else {
      var d: nat := c - 1;
      GroupedBag(rows, assign, d);
      BelowNext(rows, assign, d, |rows|);
      GroupedNext(rows, assign, d);
      assert c == d + 1;
    }
  }

  lemma NoneGrouped(rows: seq<Row>, assign: seq<nat>)
    requires |assign| == |rows|
    ensures multiset(Grouped(rows, assign, 0)) == multiset{} && Ids(Grouped(rows, assign, 0)) == {}
  {
  }

  lemma GroupedNext(rows: seq<Row>, assign: seq<nat>, c: nat)
    requires |assign| == |rows|
    ensures multiset(Grouped(rows, assign, c + 1)) == multiset(Grouped(rows, assign, c))
              + multiset(Members(rows, assign, c, |rows|))
  {
    hide Members, Ids;
    var g, m := Grouped(rows, assign, c), Members(rows, assign, c, |rows|);
    BagConcat(g, m);
    assert Grouped(rows, assign, c + 1) == g + m;
  }

  lemma BagConcat(a: seq<Row>, b: seq<Row>)
    ensures multiset(a + b) == multiset(a) + multiset(b)
  {
  }

  lemma {:induction false} AllBelow(rows: seq<Row>, assign: seq<nat>, c: nat, i: nat)
    requires |assign| == |rows| && i <= |rows| && forall j :: 0 <= j < |rows| ==> assign[j] < c
    ensures Below(rows, assign, c, i) == multiset(rows[..i])
  {
    if i > 0 {
      AllBelow(rows, assign, c, i - 1);
      assert rows[..i] == rows[..i - 1] + [rows[i - 1]];
    }
  }

  // ---- every cell carries its centroid ---------------------------------------------------------

  ghost predicate HomeRows(cells: seq<Cell>, centroids: seq<Vec>, dist: Distance)
    requires centroids != []
  {
    forall i, s :: 0 <= i < |cells| && 0 <= s < |cells[i].slots| && cells[i].slots[s].valid ==>
      Nearest(cells[i].slots[s].row.vec, centroids, dist) == cells[i].centroid
  }

  ghost predicate CentroidRange(cells: seq<Cell>, k: nat) {
    forall i :: 0 <= i < |cells| ==> 0 <= cells[i].centroid < k
  }

  ghost predicate BufferHome(f: Filling, centroids: seq<Vec>, dist: Distance, c: int)
    requires centroids != []
  {
    && HomeRows(f.t.cells, centroids, dist) && CentroidRange(f.t.cells, |centroids|)
    && (forall s :: 0 <= s < |f.buf| ==> Nearest(f.buf[s].vec, centroids, dist) == c)
  }

  lemma FlushHome(f: Filling, centroids: seq<Vec>, dist: Distance, c: nat)
    requires c < |centroids| && |f.buf| <= CELL_MAX && BufferHome(f, centroids, dist, c)
    ensures HomeRows(Flush(f.t, c, f.buf).cells, centroids, dist)
              && CentroidRange(Flush(f.t, c, f.buf).cells, |centroids|)
  {
    var u := Flush(f.t, c, f.buf);
    forall i, s | 0 <= i < |u.cells| && 0 <= s < |u.cells[i].slots| && u.cells[i].slots[s].valid
      ensures Nearest(u.cells[i].slots[s].row.vec, centroids, dist) == u.cells[i].centroid
    {
      if i < |f.t.cells| {
        assert u.cells[i] == f.t.cells[i];
      } else {
        assert s < |f.buf| && u.cells[i].slots[s].row == f.buf[s];
      }
    }
  }

  lemma {:induction false} ScanHome(t: Tables, c: nat, rows: seq<Row>, centroids: seq<Vec>, dist: Distance, i: nat)
    requires c < |centroids| && i <= |rows| && BufferHome(Filling(t, []), centroids, dist, c)
    ensures BufferHome(ScanRows(t, c, rows, Assignments(rows, centroids, dist), i), centroids, dist, c)
    ensures ScanRows(t, c, rows, Assignments(rows, centroids, dist), i).t.centroids == t.centroids
    ensures ScanRows(t, c, rows, Assignments(rows, centroids, dist), i).t.trained == t.trained
  {
    if i > 0 {
      ScanHome(t, c, rows, centroids, dist, i - 1);
      var f := ScanRows(t, c, rows, Assignments(rows, centroids, dist), i - 1);
      FlushHome(f, centroids, dist, c);
    }
  }

  lemma {:induction false} FillHome(rows: seq<Row>, centroids: seq<Vec>, dist: Distance, c: nat)
    requires centroids != [] && c <= |centroids|
    ensures var u := FillCells(Tables(true, centroids, [], map[]), rows, Assignments(rows, centroids, dist), c);
            && HomeRows(u.cells, centroids, dist) && CentroidRange(u.cells, |centroids|)
            && u.trained && u.centroids == centroids
  {
    if c > 0 {
      FillHome(rows, centroids, dist, c - 1);
      var assign := Assignments(rows, centroids, dist);
      var u := FillCells(Tables(true, centroids, [], map[]), rows, assign, c - 1);
      ScanHome(u, c - 1, rows, centroids, dist, |rows|);
      FlushHome(ScanRows(u, c - 1, rows, assign, |rows|), centroids, dist, c - 1);
    }
  }

  /** A rebuild partitions the rows: whatever shape the cells had, the new index is
      coherent and packed, every cell carries its rows' nearest centroid, and the same
      rows are live, each in exactly one slot. */
  lemma RebuildPartitions(rows: seq<Row>, centroids: seq<Vec>, dist: Distance)
    requires centroids != [] && Distinct(rows)
    ensures var u := Rebuilt(rows, centroids, dist);
            && Coherent(u) && Packed(u) && Assigned(u, dist)
            && multiset(Live(u.cells)) == multiset(rows)
            && u.trained && u.centroids == centroids
  {
    var assign := Assignments(rows, centroids, dist);
    var k := |centroids|;
    var u := Rebuilt(rows, centroids, dist);
    FillKeeps(Tables(true, centroids, [], map[]), rows, assign, k);
    FillHome(rows, centroids, dist, k);
    forall i | 0 <= i < |u.cells|
      ensures HomeCell(u, u.cells[i], dist)
    {
    }
    GroupedBag(rows, assign, k);
    AllBelow(rows, assign, k, |rows|);
    assert rows[..|rows|] == rows;
    assert Live(u.cells) + [] == Live(u.cells);
    assert Grouped(rows, assign, k) + Members(rows, assign, k, 0) == Grouped(rows, assign, k);
  }

  // ---- no cell is wasted ---------------------------------------------------------------------

  /** No cell is empty, and of a centroid's cells only the last may have room. */
  ghost predicate Tight(cells: seq<Cell>) {
    && (forall i :: 0 <= i < |cells| ==> 0 < cells[i].n <= CELL_MAX)
    && (forall i, j :: 0 <= i < j < |cells| && cells[i].centroid == cells[j].centroid ==> cells[i].n == CELL_MAX)
  }

  /** Cells of centroids up to `c`, those of `c` itself full. */
  ghost predicate TightUpTo(cells: seq<Cell>, c: int) {
    && Tight(cells)
    && (forall i :: 0 <= i < |cells| ==> cells[i].centroid <= c)
    && (forall i :: 0 <= i < |cells| && cells[i].centroid == c ==> cells[i].n == CELL_MAX)
  }

  lemma FlushStaysTight(t: Tables, c: int, buf: seq<Row>)
    requires TightUpTo(t.cells, c) && 0 < |buf| <= CELL_MAX
    ensures Tight(Flush(t, c, buf).cells) && forall i :: 0 <= i <= |t.cells| ==> Flush(t, c, buf).cells[i].centroid <= c
    ensures |buf| == CELL_MAX ==> TightUpTo(Flush(t, c, buf).cells, c)
  {
    var u := Flush(t, c, buf).cells;
    assert u[|t.cells|].n == |buf| && u[|t.cells|].centroid == c;
    assert forall i :: 0 <= i < |t.cells| ==> u[i] == t.cells[i];
  }

  lemma {:induction false} ScanStaysTight(t: Tables, c: int, rows: seq<Row>, assign: seq<nat>, i: nat)
    requires |assign| == |rows| && i <= |rows| && TightUpTo(t.cells, c)
    ensures TightUpTo(ScanRows(t, c, rows, assign, i).t.cells, c)
  {
    if i > 0 {
      ScanStaysTight(t, c, rows, assign, i - 1);
      var f := ScanRows(t, c, rows, assign, i - 1);
      if |f.buf| == CELL_MAX {
        FlushStaysTight(f.t, c, f.buf);
      }
    }
  }

  lemma RestStaysTight(f: Filling, c: int)
    requires TightUpTo(f.t.cells, c) && |f.buf| <= CELL_MAX
    ensures Tight(FlushRest(f, c).cells)
    ensures forall i :: 0 <= i < |FlushRest(f, c).cells| ==> FlushRest(f, c).cells[i].centroid <= c
  {
    if f.buf != [] {
      FlushStaysTight(f.t, c, f.buf);
    }
  }

  lemma {:induction false} FillStaysTight(t: Tables, rows: seq<Row>, assign: seq<nat>, c: nat)
    requires |assign| == |rows| && t.cells == []
    ensures TightUpTo(FillCells(t, rows, assign, c).cells, c)
  {
    if c > 0 {
      FillStaysTight(t, rows, assign, c - 1);
      var u := FillCells(t, rows, assign, c - 1);
      ScanStaysTight(u, c - 1, rows, assign, |rows|);
      RestStaysTight(ScanRows(u, c - 1, rows, assign, |rows|), c - 1);
      hide FlushRest, ScanRows, Tight;
    }
  }

  /** A rebuild makes no empty cell, and fills a centroid's cells one after the other. */
  lemma RebuildIsTight(rows: seq<Row>, centroids: seq<Vec>, dist: Distance)
    requires centroids != []
    ensures Tight(Rebuilt(rows, centroids, dist).cells)
  {
    FillStaysTight(Tables(true, centroids, [], map[]), rows, Assignments(rows, centroids, dist), |centroids|);
  }
}
