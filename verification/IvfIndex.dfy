/** The IVF index as one state machine: inserts, deletes and rebuilds in any order, the
    invariants its runs keep, and exactly when they stop keeping them. */
module IvfIndex {
  import opened Wrappers
  import opened IvfCells
  import opened IvfRebuild
  import opened IvfReachable
  import KMeans

  // ---- runs ---------------------------------------------------------------------------------

  datatype Event = Insert(row: Row, cell: nat) | Delete(rowid: int) | Rebuild(centroids: seq<Vec>)

  /** The table's primary key rules out inserting a rowid that is present; the cell is
      any one the lookup may answer; a rebuild needs vectors and yields centroids. */
  ghost predicate Legal(t: Tables, e: Event, dist: Distance) {
    match e
    case Insert(row, i) =>
      && row.rowid !in t.rowMap && (t.trained ==> t.centroids != []) && MayOpen(t, Home(t, row.vec, dist), i)
    case Delete(r) => true
    case Rebuild(centroids) => centroids != [] && Loaded(t.cells) != []
  }

  ghost function Apply(t: Tables, e: Event, dist: Distance): Tables
    requires Legal(t, e, dist)
  {
    match e
    case Insert(row, i) => Inserted(t, row, i, dist)
    case Delete(r) => Deleted(t, r)
    case Rebuild(centroids) => Rebuilt(Loaded(t.cells), centroids, dist)
  }

  ghost predicate IsRun(states: seq<Tables>, events: seq<Event>, dist: Distance) {
    && |states| == |events| + 1 && states[0] == EMPTY
    && (forall k :: 0 <= k < |events| ==>
          Legal(states[k], events[k], dist) && states[k + 1] == Apply(states[k], events[k], dist))
  }

  /** The slot an insert appends to holds no row. */
  ghost predicate LandsFree(t: Tables, e: Event) {
    e.Insert? && e.cell < |t.cells| && SlotInRange(t.cells[e.cell]) ==> !t.cells[e.cell].slots[t.cells[e.cell].n].valid
  }

  lemma StepKeepsCoherent(t: Tables, e: Event, dist: Distance)
    requires Coherent(t) && Assigned(t, dist) && Legal(t, e, dist) && LandsFree(t, e)
    ensures Coherent(Apply(t, e, dist)) && Assigned(Apply(t, e, dist), dist)
  {
    match e
    case Insert(row, i) =>
      assert i < |t.cells| ==> CellShape(t.cells[i]);
      InsertKeepsCoherent(t, row, i, dist);
    case Delete(r) =>
      DeleteKeeps(t, r);
      DeleteKeepsAssigned(t, r, dist);
    case Rebuild(centroids) =>
      CoherentIsGrounded(t);
      RebuildRepairs(t, centroids, dist);
  }

  /** Every reachable index is grounded and assigned, whatever was overwritten on the way. */
  lemma {:induction false} RunsAreGrounded(states: seq<Tables>, events: seq<Event>, dist: Distance, k: nat)
    requires IsRun(states, events, dist) && k < |states|
    ensures Grounded(states[k]) && Assigned(states[k], dist)
  {
    hide Grounded, Assigned, Legal, Apply;
    if k == 0 {
      EmptyIsGrounded(dist);
    } else {
      RunsAreGrounded(states, events, dist, k - 1);
      GroundedStep(states[k - 1], events[k - 1], dist);
    }
  }

  lemma EmptyIsGrounded(dist: Distance)
    ensures Grounded(EMPTY) && Assigned(EMPTY, dist)
  {
  }

  lemma GroundedStep(t: Tables, e: Event, dist: Distance)
    requires Grounded(t) && Assigned(t, dist) && Legal(t, e, dist)
    ensures Grounded(Apply(t, e, dist)) && Assigned(Apply(t, e, dist), dist)
  {
    match e
    case Insert(row, i) =>
      InsertKeepsGrounded(t, row, i, dist);
      InsertKeepsAssigned(t, row, i, dist);
    case Delete(r) =>
      DeleteKeepsGrounded(t, r);
      DeleteKeepsAssigned(t, r, dist);
    case Rebuild(centroids) => RebuildRepairs(t, centroids, dist);
  }

  /** A rebuild of any reachable index: coherent, packed, each row with its nearest centroid,
      and the same rows live, each in exactly one slot. */
  lemma RebuildOfReachable(states: seq<Tables>, events: seq<Event>, dist: Distance, k: nat, centroids: seq<Vec>)
    requires IsRun(states, events, dist) && k < |states| && centroids != []
    ensures var t := states[k];
            var u := Rebuilt(Loaded(t.cells), centroids, dist);
            && Loaded(t.cells) == Live(t.cells) && Distinct(Live(t.cells))
            && Coherent(u) && Packed(u) && Assigned(u, dist)
            && multiset(Live(u.cells)) == multiset(Live(t.cells)) && u.rowMap.Keys == Ids(Live(t.cells))
  {
    RunsAreGrounded(states, events, dist, k);
    LoadFindsAll(states[k]);
    LiveRowsDistinct(states[k]);
    RebuildRepairs(states[k], centroids, dist);
  }

  /** Without deletes every reachable index is coherent and packed and every cell carries
      its rows' centroid. */
  lemma {:induction false} PackedRuns(states: seq<Tables>, events: seq<Event>, dist: Distance, k: nat)
    requires IsRun(states, events, dist) && k < |states|
    requires forall j :: 0 <= j < k ==> !events[j].Delete?
    ensures Coherent(states[k]) && Packed(states[k]) && Assigned(states[k], dist)
  {
    hide Coherent, Packed, Assigned, Legal, Apply;
    if k == 0 {
      EmptyIsPacked(dist);
    } else {
      PackedRuns(states, events, dist, k - 1);
      PackedStep(states[k - 1], events[k - 1], dist);
    }
  }

  lemma EmptyIsPacked(dist: Distance)
    ensures Coherent(EMPTY) && Packed(EMPTY) && Assigned(EMPTY, dist)
  {
  }

  lemma PackedStep(t: Tables, e: Event, dist: Distance)
    requires Coherent(t) && Packed(t) && Assigned(t, dist) && Legal(t, e, dist) && !e.Delete?
    ensures Coherent(Apply(t, e, dist)) && Packed(Apply(t, e, dist)) && Assigned(Apply(t, e, dist), dist)
  {
    match e
    case Insert(row, i) => InsertKeeps(t, row, i, dist);
    case Rebuild(centroids) =>
      CoherentIsGrounded(t);
      RebuildRepairs(t, centroids, dist);
  }

  /** With deletes, an index stays coherent along a run exactly when every insert lands
      on a free slot. */
  lemma {:induction false} CoherentRunsExactly(states: seq<Tables>, events: seq<Event>, dist: Distance, k: nat)
    requires IsRun(states, events, dist) && k < |states|
    ensures (forall j :: 0 <= j <= k ==> Coherent(states[j]))
              <==> (forall j :: 0 <= j < k ==> LandsFree(states[j], events[j]))
    ensures (forall j :: 0 <= j <= k ==> Coherent(states[j])) ==> Assigned(states[k], dist)
  {
    hide Coherent, Assigned, LandsFree, Legal, Apply;
    if k == 0 {
      EmptyIsPacked(dist);
    } else {
      CoherentRunsExactly(states, events, dist, k - 1);
      assert (forall j :: 0 <= j <= k ==> Coherent(states[j]))
        <==> (forall j :: 0 <= j <= k - 1 ==> Coherent(states[j])) && Coherent(states[k]);
      assert (forall j :: 0 <= j < k ==> LandsFree(states[j], events[j]))
        <==> (forall j :: 0 <= j < k - 1 ==> LandsFree(states[j], events[j]))
             && LandsFree(states[k - 1], events[k - 1]);
      if forall j :: 0 <= j <= k - 1 ==> Coherent(states[j]) {
        StepExactly(states[k - 1], events[k - 1], dist);
      }
    }
  }

  lemma StepExactly(t: Tables, e: Event, dist: Distance)
    requires Coherent(t) && Assigned(t, dist) && Legal(t, e, dist)
    ensures Coherent(Apply(t, e, dist)) <==> LandsFree(t, e)
    ensures LandsFree(t, e) ==> Assigned(Apply(t, e, dist), dist)
  {
    if LandsFree(t, e) {
      StepKeepsCoherent(t, e, dist);
    } else {
      PutKeepsExactly(t, e.cell, e.row);
    }
  }

  /** The row an insert into cell `i` writes over, if any. */
  ghost function Overwritten(t: Tables, i: nat): multiset<Row> {
    if i < |t.cells| && SlotInRange(t.cells[i]) then One(t.cells[i].slots[t.cells[i].n]) else multiset{}
  }

  /** The row in the slot that deleting `r` clears, if any. */
  ghost function Cleared(t: Tables, r: int): multiset<Row> {
    if r !in t.rowMap then multiset{} else
      var p := t.rowMap[r];
      if p.cell < |t.cells| && p.slot < |t.cells[p.cell].slots| then One(t.cells[p.cell].slots[p.slot]) else multiset{}
  }

  /** What one step does to the live rows of any reachable index: an insert adds its row and
      loses what it overwrites, a delete loses what sits in the cleared slot, a rebuild
      keeps them all. */
  lemma StepRows(t: Tables, e: Event, dist: Distance)
    requires Grounded(t) && Assigned(t, dist) && Legal(t, e, dist)
    ensures var u := Apply(t, e, dist);
            match e
            case Insert(row, i) => multiset(Live(u.cells)) + Overwritten(t, i) == multiset(Live(t.cells))
                + multiset{row}
            case Delete(r) => multiset(Live(u.cells)) + Cleared(t, r) == multiset(Live(t.cells))
                && u.rowMap.Keys == t.rowMap.Keys - {r}
            case Rebuild(_) => multiset(Live(u.cells)) == multiset(Live(t.cells)) && u.rowMap.Keys == Ids(Live(t.cells))
  {
    hide Grounded, Assigned, Live, LiveSlots, Inserted, Deleted, Rebuilt, Overwritten, Cleared, Coherent, Packed, Ids;
    match e
    case Insert(row, i) => InsertRows(t, row, i, dist);
    case Delete(r) => DeleteRows(t, r);
    case Rebuild(centroids) => RebuildRepairs(t, centroids, dist);
  }

  lemma DeleteRows(t: Tables, r: int)
    requires Grounded(t)
    ensures multiset(Live(Deleted(t, r).cells)) + Cleared(t, r) == multiset(Live(t.cells))
    ensures Deleted(t, r).rowMap.Keys == t.rowMap.Keys - {r}
  {
    hide Live, LiveSlots;
    if r in t.rowMap {
      DeleteCounts(t, r);
    } else {
      PlusNothing(multiset(Live(t.cells)));
    }
  }

  lemma InsertRows(t: Tables, row: Row, i: nat, dist: Distance)
    requires Grounded(t) && Assigned(t, dist) && Legal(t, Insert(row, i), dist)
    ensures multiset(Live(Inserted(t, row, i, dist).cells)) + Overwritten(t, i) == multiset(Live(t.cells))
              + multiset{row}
  {
    InsertKeepsGrounded(t, row, i, dist);
    var c := Home(t, row.vec, dist);
    var o := Opened(t, c, i);
    if i == |t.cells| {
      AddedCellLive(t, NewCell(c));
    }
    hide Live, LiveSlots;
    PutCounts(o, i, row);
  }

  // ---- how deletes break the append slot --------------------------------------------------------

  /** What an index looks like when a packed cell has lost a row that was not its last:
      the append slot still holds a row. */
  lemma DeleteLeavesHole(t: Tables, r: int)
    requires Coherent(t) && Packed(t) && r in t.rowMap
    ensures t.rowMap[r].cell < |t.cells|
    ensures var p := t.rowMap[r];
            var c := t.cells[p.cell];
            var d := Deleted(t, r);
            p.slot != c.n - 1 ==>
              && 0 < c.n <= |c.slots| && |d.cells| == |t.cells| && d.cells[p.cell].n == c.n - 1
              && SlotInRange(d.cells[p.cell]) && d.cells[p.cell].slots[c.n - 1] == c.slots[c.n - 1]
                  && c.slots[c.n - 1].valid
              && c.slots[c.n - 1].row.rowid != r
              && MapsTo(t, c.slots[c.n - 1].row.rowid, Place(p.cell, c.n - 1))
  {
    var p := t.rowMap[r];
    assert Points(t, r, p);
    var c := t.cells[p.cell];
    assert CellShape(c) && PackedCell(c);
    LiveSlotsBound(c.slots);
    if p.slot != c.n - 1 {
      assert MapsTo(t, c.slots[c.n - 1].row.rowid, Place(p.cell, c.n - 1));
    }
  }

  /** Delete any row of a packed cell but its last, then insert into that cell: the last
      row is overwritten, and its rowid now reads the new row's vector. */
  lemma InsertAfterDeleteOverwrites(t: Tables, r: int, row: Row)
    requires Coherent(t) && Packed(t) && r in t.rowMap && row.rowid !in t.rowMap
    ensures t.rowMap[r].cell < |t.cells|
    ensures var p := t.rowMap[r];
            var c := t.cells[p.cell];
            p.slot != c.n - 1 ==>
              && 0 < c.n <= |c.slots| && p.cell < |Deleted(t, r).cells| && SlotInRange(Deleted(t, r).cells[p.cell])
              && var victim := c.slots[c.n - 1].row;
              var u := Put(Deleted(t, r), p.cell, row);
              && victim.rowid != r && GetVector(t, victim.rowid) == Some(victim.vec)
              && GetVector(u, victim.rowid) == Some(row.vec)
              && !Coherent(u)
  {
    hide Coherent, Packed, Live, LiveSlots;
    DeleteLeavesHole(t, r);
    DeleteKeeps(t, r);
    var p := t.rowMap[r];
    if p.slot != t.cells[p.cell].n - 1 {
      PutKeepsExactly(Deleted(t, r), p.cell, row);
    }
  }

  /** A concrete run of that kind: insert 1 and 2, delete 1, insert 3. Rowid 2 then reads the
      vector of rowid 3. */
  lemma OverwriteRun(dist: Distance)
    ensures var a, b, c := Row(1, [1.0]), Row(2, [2.0]), Row(3, [3.0]);
            exists states: seq<Tables> ::
              && IsRun(states, [Insert(a, 0), Insert(b, 0), Delete(1), Insert(c, 0)], dist)
              && GetVector(states[4], 2) == Some([3.0]) && !Coherent(states[4])
  {
    var a, b, c := Row(1, [1.0]), Row(2, [2.0]), Row(3, [3.0]);
    var s1 := Inserted(EMPTY, a, 0, dist);
    var s2 := Inserted(s1, b, 0, dist);
    var s3 := Deleted(s2, 1);
    var s4 := Inserted(s3, c, 0, dist);
    assert Legal(EMPTY, Insert(a, 0), dist) && Legal(s1, Insert(b, 0), dist);
    assert Legal(s2, Delete(1), dist) && Legal(s3, Insert(c, 0), dist);
    var states := [EMPTY, s1, s2, s3, s4];
    var events := [Insert(a, 0), Insert(b, 0), Delete(1), Insert(c, 0)];
    assert IsRun(states, events, dist);
    OverwriteIsIncoherent(dist);
  }

  lemma OverwriteIsIncoherent(dist: Distance)
    ensures var t := Inserted(Deleted(Inserted(Inserted(EMPTY, Row(1, [1.0]), 0, dist), Row(2, [2.0]), 0, dist), 1),
              Row(3, [3.0]), 0, dist);
            GetVector(t, 2) == Some([3.0]) && !Coherent(t)
  {
    hide Coherent, Packed, Assigned, Live, LiveSlots;
    var t1 := Inserted(EMPTY, Row(1, [1.0]), 0, dist);
    EmptyIsPacked(dist);
    InsertKeeps(EMPTY, Row(1, [1.0]), 0, dist);
    var t2 := Inserted(t1, Row(2, [2.0]), 0, dist);
    InsertKeeps(t1, Row(2, [2.0]), 0, dist);
    InsertAfterDeleteOverwrites(t2, 1, Row(3, [3.0]));
  }

  // ---- the class ---------------------------------------------------------------------------------

  /** Every live vector has the column's dimension. */
  ghost predicate Dimensioned(t: Tables, dim: nat) {
    forall row :: row in multiset(Live(t.cells)) ==> |row.vec| == dim
  }

  function VectorsOf(rows: seq<Row>): (vectors: seq<Vec>)
    ensures |vectors| == |rows| && forall i :: 0 <= i < |rows| ==> vectors[i] == rows[i].vec
  {
    seq(|rows|, i requires 0 <= i < |rows| => rows[i].vec)
  }

  lemma LiveShape(t: Tables, dim: nat)
    requires Dimensioned(t, dim)
    ensures KMeans.Shape(VectorsOf(Live(t.cells)), dim)
  {
    var rows := Live(t.cells);
    forall i | 0 <= i < |rows|
      ensures |rows[i].vec| == dim
    {
      InLive(rows, i);
    }
  }

  lemma InsertKeepsDimension(t: Tables, row: Row, i: nat, dist: Distance, dim: nat)
    requires Dimensioned(t, dim) && |row.vec| == dim && (t.trained ==> t.centroids != []) && i <= |t.cells|
    ensures Dimensioned(Inserted(t, row, i, dist), dim)
  {
    var c := Home(t, row.vec, dist);
    var o := Opened(t, c, i);
    if i == |t.cells| {
      AddedCellLive(t, NewCell(c));
    }
    hide Live, LiveSlots;
    if SlotInRange(o.cells[i]) {
      PutCounts(o, i, row);
      BagWithin(multiset(Live(Put(o, i, row).cells)), One(o.cells[i].slots[o.cells[i].n]), multiset(Live(t.cells)),
          row);
    }
  }

  lemma BagWithin(a: multiset<Row>, x: multiset<Row>, b: multiset<Row>, row: Row)
    requires a + x == b + multiset{row}
    ensures forall r :: r in a ==> r in b || r == row
  {
    forall r | r in a
      ensures r in b || r == row
    {
      assert r in a + x;
    }
  }

  lemma DeleteKeepsDimension(t: Tables, r: int, dim: nat)
    requires Dimensioned(t, dim)
    ensures Dimensioned(Deleted(t, r), dim)
  {
    hide Live, LiveSlots;
    if r in t.rowMap && t.rowMap[r].cell < |t.cells| && t.rowMap[r].slot < |t.cells[t.rowMap[r].cell].slots| {
      DeleteCounts(t, r);
      var u, was := multiset(Live(Deleted(t, r).cells)), Cleared(t, r);
      forall row | row in u
        ensures row in multiset(Live(t.cells))
      {
        assert row in u + was;
      }
    }
  }

  lemma RebuildKeepsValid(t: Tables, centroids: seq<Vec>, dist: Distance, dim: nat)
    requires Grounded(t) && Dimensioned(t, dim) && centroids != []
    ensures Grounded(Rebuilt(Live(t.cells), centroids, dist))
              && Dimensioned(Rebuilt(Live(t.cells), centroids, dist), dim)
  {
    hide Grounded, Coherent, Packed, Assigned, Live, Rebuilt;
    LoadFindsAll(t);
    RebuildRepairs(t, centroids, dist);
  }

  ghost predicate RetrainedBy(rows: seq<Row>, dim: nat, maxIter: nat, start: seq<Vec>, dist: Distance, u: Tables,
                              list: seq<Vec>, converged: bool, run: seq<KMeans.Iteration>)
    requires KMeans.Shape(VectorsOf(rows), dim)
  {
    && list != [] && KMeans.LloydOutcome(VectorsOf(rows), dim, maxIter, start, list, converged, run)
    && u == Rebuilt(rows, list, dist)
  }

  /** `u` is a rebuild of the rows over centroids that Lloyd's k-means trained from `start`. */
  ghost predicate Retrained(rows: seq<Row>, dim: nat, maxIter: nat, start: seq<Vec>, dist: Distance, u: Tables)
    requires KMeans.Shape(VectorsOf(rows), dim)
  {
    exists list, converged, run :: RetrainedBy(rows, dim, maxIter, start, dist, u, list, converged, run)
  }

  class Index {
    var trained: bool
    var centroids: seq<Vec>
    var cells: seq<Cell>
    var rowMap: map<int, Place>
    const dist: Distance
    const dim: nat

    ghost predicate Valid()
      reads this
    {
      Grounded(State()) && Dimensioned(State(), dim)
    }

    ghost function State(): Tables
      reads this
    {
      Tables(trained, centroids, cells, rowMap)
    }

    constructor (dist: Distance, dim: nat)
      ensures Valid()
      ensures State() == EMPTY && this.dist == dist && this.dim == dim
    {
      trained, centroids, cells, rowMap := false, [], [], map[];
      this.dist, this.dim := dist, dim;
    }

    method NearestCentroid(v: Vec, list: seq<Vec>) returns (best: nat)
      requires list != []
      ensures best == Nearest(v, list, dist)
    {
      best := 0;
      var least := dist(v, list[0]);
      for c := 1 to |list|
        invariant best < c && best == Nearest(v, list[..c], dist) && least == dist(v, list[best])
      {
        assert list[..c + 1][..c] == list[..c];
        var d := dist(v, list[c]);
        if d < least {
          least, best := d, c;
        }
      }
      assert list[..|list|] == list;
    }

    /** Any cell of the centroid with room, or a new one. */
    method FindOrCreate(centroid: int) returns (i: nat)
      modifies this`cells
      ensures MayOpen(old(State()), centroid, i)
      ensures State() == Opened(old(State()), centroid, i)
    {
      var rooms := set j | 0 <= j < |cells| && HasRoom(cells[j], centroid);
      var found := AnyOf(rooms);
      match found
      case Some(j) => i := j;
      case None =>
        forall j | 0 <= j < |cells|
          ensures !HasRoom(cells[j], centroid)
        {
          assert j !in rooms;
        }
        i := |cells|;
        cells := cells + [NewCell(centroid)];
    }

    /** The table's primary key and the column's dimension keep the index valid. */
    method Insert(row: Row) returns (ok: bool)
      requires Valid()
      modifies this
      ensures ok == (old(trained) ==> old(centroids) != [])
      ensures !ok ==> State() == old(State())
      ensures ok ==> exists i: nat ::
                  && MayOpen(old(State()), Home(old(State()), row.vec, dist), i)
                  && (i < |old(cells)| ==> SlotInRange(old(cells)[i]))
                  && State() == Inserted(old(State()), row, i, dist)
      ensures row.rowid !in old(rowMap) && |row.vec| == dim ==> Valid()
    {
      var home := UNASSIGNED;
      if trained {
        if centroids == [] {
          return false;
        }
        home := NearestCentroid(row.vec, centroids);
      }
      ghost var was := State();
      var i: nat := FindOrCreate(home);
      assert i < |was.cells| ==> |Held(was.rowMap, i)| <= was.cells[i].n;
      var c := cells[i];
      cells := cells[i := c.(n := c.n + 1, slots := c.slots[c.n := Slot(true, row)])];
      if row.rowid !in rowMap {
        rowMap := rowMap[row.rowid := Place(i, c.n)];
      }
      assert State() == Inserted(was, row, i, dist);
      if row.rowid !in was.rowMap && |row.vec| == dim {
        InsertKeepsGrounded(was, row, i, dist);
        InsertKeepsDimension(was, row, i, dist, dim);
      }
      return true;
    }

    method Delete(r: int)
      requires Valid()
      modifies this
      ensures Valid()
      ensures State() == Deleted(old(State()), r)
    {
      hide Grounded, Dimensioned, Live, LiveSlots;
      DeleteKeepsGrounded(State(), r);
      DeleteKeepsDimension(State(), r, dim);
      if r !in rowMap {
        return;
      }
      var p := rowMap[r];
      if p.cell < |cells| && p.slot < |cells[p.cell].slots| {
        var c := cells[p.cell];
        cells := cells[p.cell := c.(n := c.n - 1, slots := c.slots[p.slot := c.slots[p.slot].(valid := false)])];
      }
      rowMap := rowMap - {r};
    }

    method WriteCell(c: int, buf: seq<Row>)
      requires |buf| <= CELL_MAX
      modifies this`cells, this`rowMap
      ensures State() == Flush(old(State()), c, buf)
    {
      var id := |cells|;
      cells := cells + [FilledCell(c, buf)];
      for s := 0 to |buf|
        invariant cells == old(cells) + [FilledCell(c, buf)]
        invariant rowMap == MapRows(old(rowMap), buf, id, s)
      {
        if buf[s].rowid !in rowMap {
          rowMap := rowMap[buf[s].rowid := Place(id, s)];
        }
      }
    }

    method WriteCentroid(c: nat, rows: seq<Row>, assign: seq<nat>)
      requires |assign| == |rows|
      modifies this`cells, this`rowMap
      ensures State() == FlushRest(ScanRows(old(State()), c, rows, assign, |rows|), c)
    {
      ghost var was := State();
      var buf: seq<Row> := [];
      for i := 0 to |rows|
        invariant Filling(State(), buf) == ScanRows(was, c, rows, assign, i)
      {
        if assign[i] == c {
          if |buf| >= CELL_MAX {
            WriteCell(c, buf);
            buf := [];
          }
          buf := buf + [rows[i]];
        }
      }
      if |buf| > 0 {
        WriteCell(c, buf);
      }
    }

    method Assign(rows: seq<Row>, list: seq<Vec>) returns (assign: seq<nat>)
      requires list != []
      ensures assign == Assignments(rows, list, dist)
    {
      assign := [];
      for i := 0 to |rows|
        invariant assign == Assignments(rows[..i], list, dist)
      {
        var best: nat := NearestCentroid(rows[i].vec, list);
        assign := assign + [best];
      }
      assert rows[..|rows|] == rows;
    }

    /** Load every live row, run k-means over the vectors, assign and write the cells.
        `seeding` stands for k-means++: it picks as many starting centroids as asked. */
    method Rebuild(nlist: int, maxIter: nat, seeding: (seq<Vec>, nat) -> seq<Vec>) returns (ok: bool)
      requires Valid()
      requires forall vs, k: nat :: 0 < k <= |vs| && KMeans.Shape(vs, dim) ==>
                 |seeding(vs, k)| == k && KMeans.Shape(seeding(vs, k), dim)
      modifies this
      ensures Valid()
      ensures ok == (nlist > 0 && Live(old(cells)) != [] && dim > 0)
      ensures !ok ==> State() == old(State())
      ensures KMeans.Shape(VectorsOf(Live(old(cells))), dim)
      ensures ok ==>
                var rows := Live(old(cells));
                var start := seeding(VectorsOf(rows), if nlist > |rows| then |rows| else nlist);
                Retrained(rows, dim, maxIter, start, dist, State())
    {
      hide Grounded, Dimensioned, Coherent, Packed, Assigned, Live, LiveSlots, Loaded, Rebuilt, KMeans.LloydOutcome;
      ghost var was := State();
      LoadFindsAll(was);
      LiveShape(was, dim);
      if nlist <= 0 {
        return false;
      }
      var rows := LoadAll(cells);
      if rows == [] {
        return false;
      }
      var k: nat := if nlist > |rows| then |rows| else nlist;
      var start := seeding(VectorsOf(rows), k);
      var list, trainedOk, converged, run := KMeans.Lloyd(VectorsOf(rows), dim, k, maxIter, start);
      if !trainedOk {
        return false;
      }
      RebuildKeepsValid(was, list, dist, dim);
      WriteIndex(rows, list);
      assert RetrainedBy(rows, dim, maxIter, start, dist, State(), list, converged, run);
      return true;
    }

    method WriteIndex(rows: seq<Row>, list: seq<Vec>)
      requires list != []
      modifies this
      ensures State() == Rebuilt(rows, list, dist)
    {
      var assign := Assign(rows, list);
      trained, centroids, cells, rowMap := true, list, [], map[];
      ghost var base := State();
      for c := 0 to |list|
        invariant State() == FillCells(base, rows, assign, c)
      {
        WriteCentroid(c, rows, assign);
      }
    }
  }
}
