/** The DiskANN index as a state machine: inserts (search, prune, reverse edges) and
    deletes (repair, removal, medoid, scrub), with buffering off. */
module Graph {
  import opened Wrappers
  import opened DiskAnnTables
  import opened Candidates
  import opened GraphNode
  import BeamSearch
  import Prune

  /** Nodes and vectors cover the same rows, every edge leads to another existing
      row and is stored once, and the entry point exists exactly when rows do. */
  ghost predicate GraphOk(cfg: Config, t: Tables) {
    && t.nodes.Keys == t.vectors.Keys
    && (t.medoid.None? <==> t.nodes.Keys == {})
    && (t.medoid.Some? ==> t.medoid.value in t.nodes)
    && forall r :: r in t.nodes ==> NodeOk(cfg, t.nodes[r], r, t.nodes.Keys)
  }

  ghost predicate Dangles(t: Tables, row: int) {
    exists r :: r in t.nodes && row in Neighbours(t.nodes[r])
  }

  // ---- what an insert does --------------------------------------------------------

  /** Neighbours an insert may pick: distinct stored rows other than the new one. */
  ghost predicate LegalPicks(cfg: Config, t: Tables, row: int, picks: seq<int>) {
    DistinctIds(picks) && |picks| <= cfg.slots &&
      forall i :: 0 <= i < |picks| ==> picks[i] in t.nodes && picks[i] != row
  }

  function QuantizedOf(m: Metric, vectors: map<int, Vec>, row: int): Option<QVec> {
    if row in vectors then Some(m.quantize(vectors[row])) else None
  }

  /** Every picked node gets its reverse edge, one by one; all others stay. */
  ghost predicate LinkedAll(m: Metric, nodes: map<int, Node>, after: map<int, Node>, vectors: map<int, Vec>,
                            picks: seq<int>, target: int, targetQ: QVec) {
    && after.Keys == nodes.Keys
    && forall r :: r in nodes ==>
         if r in picks then Linked(nodes[r], after[r], m, target, targetQ, QuantizedOf(m, vectors, r))
         else after[r] == nodes[r]
  }

  ghost predicate Inserted(cfg: Config, m: Metric, t: Tables, t': Tables, row: int, v: Vec, picks: seq<int>) {
    && t'.vectors == t.vectors[row := v]
    && (if t.medoid.None? then
          t'.nodes == t.nodes[row := EmptyNode(cfg)] && t'.medoid == Some(row)
        else
          && t'.medoid == t.medoid
          && LinkedAll(m, t.nodes[row := PickNode(cfg, m, picks, t'.vectors)], t'.nodes, t'.vectors, picks, row,
              m.quantize(v)))
  }

  /** `hits` answer a completed search for `v`: at most `width` rows, found with that width. */
  ghost predicate Answered(cfg: Config, m: Metric, t: Tables, v: Vec, hits: seq<Bid>) {
    && 1 <= cfg.width && t.medoid.Some? && t.medoid.value in t.vectors
    && var task := BeamSearch.Task(t, m, v, cfg.width);
       exists run :: BeamSearch.Completes(task, run)
                  && hits == BeamSearch.Take(BeamSearch.ConfirmedOnly(BeamSearch.Final(task, run)), cfg.width)
  }

  /** The tables an insert searches: the new vector is already stored, its node is not. */
  function Storing(t: Tables, row: int, v: Vec): Tables {
    t.(vectors := t.vectors[row := v])
  }

  /** The picks of an insert into a non-empty index: the hits of a search, pruned. */
  ghost predicate Picked(cfg: Config, m: Metric, t: Tables, row: int, v: Vec, picks: seq<int>) {
    t.medoid.Some? ==> exists hits :: PickedFrom(cfg, m, t, row, v, hits, picks)
  }

  ghost predicate PickedFrom(cfg: Config, m: Metric, t: Tables, row: int, v: Vec, hits: seq<Bid>, picks: seq<int>) {
    && Answered(cfg, m, Storing(t, row, v), v, hits)
    && picks == Prune.ChosenNeighbours(hits, row, Storing(t, row, v).vectors, m, cfg.alpha, cfg.slots)
  }

  // ---- what a delete does ---------------------------------------------------------

  function RepairedNode(cfg: Config, m: Metric, t: Tables, row: int, r: int): (node: Node)
    requires row in t.nodes && r in t.nodes
  {
    if r in ValidIds(t.nodes[row])
    then Repaired(cfg, t.nodes[r], m, r, row, ValidIds(t.nodes[row]), t.vectors)
    else t.nodes[r]
  }

  ghost predicate Deleted(cfg: Config, m: Metric, t: Tables, t': Tables, row: int) {
    if row !in t.nodes then t' == t
    else
      && t'.vectors == t.vectors - {row}
      && t'.nodes.Keys == t.nodes.Keys - {row}
      && (forall r :: r in t'.nodes ==> t'.nodes[r] == Scrubbed(cfg, RepairedNode(cfg, m, t, row, r), row))
      && (if t.medoid == Some(row)
          then if t'.vectors.Keys == {} then t'.medoid == None
               else t'.medoid.Some? && t'.medoid.value in t'.vectors
          else t'.medoid == t.medoid)
  }

  // ---- the invariant over every run -------------------------------------------------

  lemma InsertKeepsGraph(cfg: Config, m: Metric, t: Tables, t': Tables, row: int, v: Vec, picks: seq<int>)
    requires GraphOk(cfg, t) && LegalPicks(cfg, t, row, picks) && Inserted(cfg, m, t, t', row, v, picks)
    ensures GraphOk(cfg, t')
  {
    var rows := t.nodes.Keys + {row};
    assert t'.nodes.Keys == rows;
    if t.medoid.None? {
      assert Neighbours(EmptyNode(cfg)) == {};
    } else {
      PickNodeOk(cfg, m, picks, t'.vectors, row, rows);
      forall r | r in t'.nodes
        ensures NodeOk(cfg, t'.nodes[r], r, rows)
      {
        InsertKeepsNode(cfg, m, t, t', row, v, picks, r);
      }
    }
  }

  lemma InsertKeepsNode(cfg: Config, m: Metric, t: Tables, t': Tables, row: int, v: Vec, picks: seq<int>, r: int)
    requires GraphOk(cfg, t) && LegalPicks(cfg, t, row, picks) && Inserted(cfg, m, t, t', row, v, picks)
    requires t.medoid.Some? && r in t'.nodes
    ensures NodeOk(cfg, t'.nodes[r], r, t.nodes.Keys + {row})
  {
    var rows := t.nodes.Keys + {row};
    var mid := t.nodes[row := PickNode(cfg, m, picks, t'.vectors)];
    PickNodeOk(cfg, m, picks, t'.vectors, row, rows);
    assert NodeOk(cfg, mid[r], r, rows);
    if r in picks {
      LinkKeepsNodeOk(cfg, mid[r], t'.nodes[r], m, r, rows, row, m.quantize(v), QuantizedOf(m, t'.vectors, r));
    }
  }

  lemma DeleteKeepsGraph(cfg: Config, m: Metric, t: Tables, t': Tables, row: int)
    requires GraphOk(cfg, t) && Deleted(cfg, m, t, t', row)
    ensures GraphOk(cfg, t') && !Dangles(t', row) && row !in t'.nodes
  {
    if row in t.nodes {
      forall r | r in t'.nodes
        ensures NodeOk(cfg, t'.nodes[r], r, t'.nodes.Keys)
      {
        DeleteEdges(cfg, m, t, t', row, r);
      }
      DeleteLeavesNoEdge(cfg, m, t, t', row);
      assert t'.nodes.Keys == t'.vectors.Keys;
    } else {
      assert forall r :: r in t.nodes ==> NodeOk(cfg, t.nodes[r], r, t.nodes.Keys);
    }
  }

  /** A delete costs a surviving node only its edge to the deleted row, and gives it at most edges
      to former neighbours of that row: one exactly when the two pointed at each other and some
      such neighbour may take the slot. */
  lemma DeleteEdges(cfg: Config, m: Metric, t: Tables, t': Tables, row: int, r: int)
    requires GraphOk(cfg, t) && Deleted(cfg, m, t, t', row) && row in t.nodes && r in t'.nodes
    ensures NodeOk(cfg, t'.nodes[r], r, t'.nodes.Keys)
    ensures Neighbours(t.nodes[r]) - {row} <= Neighbours(t'.nodes[r])
    ensures Neighbours(t'.nodes[r]) <= Neighbours(t.nodes[r]) + Neighbours(t.nodes[row]) - {row}
    ensures Neighbours(t'.nodes[r]) - Neighbours(t.nodes[r]) != {} <==>
              && r in Neighbours(t.nodes[row]) && row in Neighbours(t.nodes[r])
              && exists x :: x in Neighbours(t.nodes[row]) && Eligible(x, t.nodes[r], r, row, t.vectors)
  {
    var ids := ValidIds(t.nodes[row]);
    ValidIdsAreNeighbours(t.nodes[row]);
    var node := RepairedNode(cfg, m, t, row, r);
    assert NodeOk(cfg, t.nodes[r], r, t.nodes.Keys) && NodeOk(cfg, t.nodes[row], row, t.nodes.Keys);
    RepairEdges(cfg, t.nodes[r], m, r, row, ids, t.vectors);
    ScrubEdges(cfg, node, row);
    assert Neighbours(node) - Neighbours(t.nodes[r]) <= Neighbours(t.nodes[row]);
  }

  /** No edge names a deleted row, whatever the tables looked like before: the scrub
      does not rely on the graph being well formed. */
  lemma DeleteLeavesNoEdge(cfg: Config, m: Metric, t: Tables, t': Tables, row: int)
    requires Deleted(cfg, m, t, t', row) && row in t.nodes
    ensures !Dangles(t', row)
  {
    forall r | r in t'.nodes
      ensures row !in Neighbours(t'.nodes[r])
    {
      ScrubEdges(cfg, RepairedNode(cfg, m, t, row, r), row);
    }
  }

  datatype Op = Insert(row: int, v: Vec, picks: seq<int>) | Delete(row: int)

  ghost predicate Step(cfg: Config, m: Metric, t: Tables, op: Op, t': Tables) {
    match op
    case Insert(row, v, picks) =>
      LegalPicks(cfg, t, row, picks) && Picked(cfg, m, t, row, v, picks) && Inserted(cfg, m, t, t', row, v, picks)
    case Delete(row) => Deleted(cfg, m, t, t', row)
  }

  /** `states` is a run of `ops` from the empty index. */
  ghost predicate IsRun(cfg: Config, m: Metric, ops: seq<Op>, states: seq<Tables>) {
    && |states| == |ops| + 1
    && states[0] == Tables(map[], map[], None)
    && forall i :: 0 <= i < |ops| ==> Step(cfg, m, states[i], ops[i], states[i + 1])
  }

  lemma {:induction false} RunsKeepGraph(cfg: Config, m: Metric, ops: seq<Op>, states: seq<Tables>, i: nat)
    requires IsRun(cfg, m, ops, states) && i <= |ops|
    ensures GraphOk(cfg, states[i])
    ensures i > 0 && ops[i - 1].Delete? ==> ops[i - 1].row !in states[i].nodes && !Dangles(states[i], ops[i - 1].row)
  {
    if i > 0 {
      RunsKeepGraph(cfg, m, ops, states, i - 1);
      assert Step(cfg, m, states[i - 1], ops[i - 1], states[i]);
      match ops[i - 1] {
        case Insert(row, v, picks) => InsertKeepsGraph(cfg, m, states[i - 1], states[i], row, v, picks);
        case Delete(row) => DeleteKeepsGraph(cfg, m, states[i - 1], states[i], row);
      }
    }
  }

  // ---- the index -----------------------------------------------------------------------

  /** The candidates a search hands to pruning give legal picks. */
  lemma SearchGivesLegalPicks(cfg: Config, m: Metric, t: Tables, row: int, v: Vec, hits: seq<Bid>, picks: seq<int>)
    requires GraphOk(cfg, t)
    requires forall i, j :: 0 <= i < j < |hits| ==> hits[i].rowid != hits[j].rowid
    requires forall b :: b in hits ==> b.rowid in t.vectors[row := v]
    requires picks == Prune.ChosenNeighbours(hits, row, t.vectors[row := v], m, cfg.alpha, cfg.slots)
    ensures LegalPicks(cfg, t, row, picks)
  {
    Prune.ChosenAreCandidates(hits, row, t.vectors[row := v], m, cfg.alpha, cfg.slots);
  }

  // ---- what an insert achieves ------------------------------------------------------------

  /** The hits an insert prunes are stored rows, nearest first, each once, and there are some. */
  lemma AnsweredHits(cfg: Config, m: Metric, t: Tables, row: int, v: Vec, hits: seq<Bid>)
    requires GraphOk(cfg, t) && Answered(cfg, m, Storing(t, row, v), v, hits)
    ensures hits != [] && |hits| <= cfg.width && Prune.Ascending(hits) && Prune.DistinctRows(hits)
    ensures forall b :: b in hits ==> b.rowid in t.nodes
  {
    var u := Storing(t, row, v);
    var task := BeamSearch.Task(u, m, v, cfg.width);
    var run :| BeamSearch.Completes(task, run)
               && hits == BeamSearch.Take(BeamSearch.ConfirmedOnly(BeamSearch.Final(task, run)), cfg.width);
    StoredIsIntact(cfg, t, row, v);
    BeamSearch.IntactHits(cfg.width, task, run);
    BeamSearch.HitsAreCandidates(cfg.width, task, run);
    forall b | b in hits
      ensures b.rowid in t.nodes
    {
      var s := BeamSearch.Final(task, run);
      var i :| 0 <= i < |hits| && hits[i] == b;
      BeamSearch.ListedIsIntact(task, run, s[i]);
    }
  }

  lemma StoredIsIntact(cfg: Config, t: Tables, row: int, v: Vec)
    requires GraphOk(cfg, t)
    ensures BeamSearch.Intact(Storing(t, row, v))
  {
    forall r | BeamSearch.Offerable(Storing(t, row, v), r)
      ensures r in t.nodes
    {
      if n :| n in t.nodes && r in Neighbours(t.nodes[n]) {
        assert NodeOk(cfg, t.nodes[n], n, t.nodes.Keys);
      }
    }
  }

  /** Inserting a new row into a non-empty index links it: its node names the picks and nothing
      else, the nearest hit first; unless all slots are taken every hit passed over is covered by
      a pick; and no pick is covered by an earlier one. */
  lemma InsertLinks(cfg: Config, m: Metric, t: Tables, t': Tables, row: int, v: Vec, picks: seq<int>)
    requires GraphOk(cfg, t) && t.medoid.Some? && row !in t.nodes && 1 <= cfg.slots
    requires Step(cfg, m, t, Op.Insert(row, v, picks), t')
    ensures row in t'.nodes && picks != [] && Neighbours(t'.nodes[row]) == set i | 0 <= i < |picks| :: picks[i]
    ensures exists hits :: PickedFrom(cfg, m, t, row, v, hits, picks)
              && hits != [] && Prune.Ascending(hits) && picks[0] in t.nodes
              && (exists b :: b in hits && b.rowid == picks[0] && b.distance == hits[0].distance)
              && (forall b :: b in hits && b.rowid !in picks && |picks| < cfg.slots ==>
                    exists q :: q in picks && Prune.Covers(q, b, t'.vectors, m, cfg.alpha))
  {
    hide Prune.ChosenNeighbours, Answered;
    var hits: seq<Bid> :| PickedFrom(cfg, m, t, row, v, hits, picks);
    AnsweredHits(cfg, m, t, row, v, hits);
    assert hits[0] in hits;
    var first := Prune.NearestIsChosen(hits, row, t'.vectors, m, cfg.alpha, cfg.slots, hits[0]);
    assert first.distance == hits[0].distance;
    forall b | b in hits && b.rowid !in picks && |picks| < cfg.slots
      ensures exists q :: q in picks && Prune.Covers(q, b, t'.vectors, m, cfg.alpha)
    {
      Prune.PassedOverIsCovered(hits, row, t'.vectors, m, cfg.alpha, cfg.slots, b);
    }
    PickNodeOk(cfg, m, picks, t'.vectors, row, t.nodes.Keys + {row});
  }

  /** The edge back from a pick is missing only if the pick's node was full and none of its edges,
      by quantized distance, was farther than the new row. */
  lemma InsertLinksBack(cfg: Config, m: Metric, t: Tables, t': Tables, row: int, v: Vec, picks: seq<int>, p: int)
    requires GraphOk(cfg, t) && t.medoid.Some? && row !in t.nodes && p in picks
    requires Step(cfg, m, t, Op.Insert(row, v, picks), t')
    ensures p in t.nodes && p in t'.nodes && p in t.vectors
    ensures row in Neighbours(t'.nodes[p])
      || ((forall i :: 0 <= i < |t.nodes[p]| ==> t.nodes[p][i].valid)
          && !HasFarther(t.nodes[p], m, m.quantize(v), m.quantize(t.vectors[p])))
  {
    hide Picked;
    assert NodeOk(cfg, t.nodes[p], p, t.nodes.Keys);
    LinkOutcome(t.nodes[p], t'.nodes[p], m, row, m.quantize(v), QuantizedOf(m, t'.vectors, p));
  }

  // ---- quantized vectors in the slots --------------------------------------------------------

  /** A valid slot carries the quantized vector of the row it names. */
  ghost predicate Coded(m: Metric, node: Node, vectors: map<int, Vec>) {
    forall i :: 0 <= i < |node| && node[i].valid ==>
      node[i].id in vectors && node[i].qvec == m.quantize(vectors[node[i].id])
  }

  ghost predicate CodesOk(m: Metric, t: Tables) {
    forall r :: r in t.nodes ==> Coded(m, t.nodes[r], t.vectors)
  }

  lemma InsertKeepsCodes(cfg: Config, m: Metric, t: Tables, t': Tables, row: int, v: Vec, picks: seq<int>)
    requires GraphOk(cfg, t) && CodesOk(m, t) && row !in t.nodes
    requires LegalPicks(cfg, t, row, picks) && Inserted(cfg, m, t, t', row, v, picks)
    ensures CodesOk(m, t')
  {
    if t.medoid.Some? {
      var mid := t.nodes[row := PickNode(cfg, m, picks, t'.vectors)];
      forall r | r in t'.nodes
        ensures Coded(m, t'.nodes[r], t'.vectors)
      {
        assert Coded(m, mid[r], t'.vectors) by {
          assert r != row ==> Coded(m, t.nodes[r], t.vectors);
        }
        if r in picks {
          LinkKeepsCodes(mid[r], t'.nodes[r], m, row, t'.vectors, QuantizedOf(m, t'.vectors, r));
        }
      }
    }
  }

  lemma LinkKeepsCodes(node: Node, after: Node, m: Metric, target: int, vectors: map<int, Vec>, nodeQ: Option<QVec>)
    requires Coded(m, node, vectors) && target in vectors
    requires Linked(node, after, m, target, m.quantize(vectors[target]), nodeQ)
    ensures Coded(m, after, vectors)
  {
  }

  lemma DeleteKeepsCodes(cfg: Config, m: Metric, t: Tables, t': Tables, row: int)
    requires GraphOk(cfg, t) && CodesOk(m, t) && Deleted(cfg, m, t, t', row)
    ensures CodesOk(m, t')
  {
    if row in t.nodes {
      forall r | r in t'.nodes
        ensures Coded(m, t'.nodes[r], t'.vectors)
      {
        assert Coded(m, t.nodes[r], t.vectors);
        assert Coded(m, RepairedNode(cfg, m, t, row, r), t.vectors);
        DeleteEdges(cfg, m, t, t', row, r);
        var node := t'.nodes[r];
        assert forall i :: 0 <= i < |node| && node[i].valid ==> node[i].id in Neighbours(node);
      }
    }
  }

  /** Over every run that never inserts a row that is there, as the table's primary key demands,
      searches compare true quantized vectors: no slot carries a stale or foreign one. */
  lemma {:induction false} RunsKeepCodes(cfg: Config, m: Metric, ops: seq<Op>, states: seq<Tables>, i: nat)
    requires IsRun(cfg, m, ops, states) && i <= |ops|
    requires forall j :: 0 <= j < i && ops[j].Insert? ==> ops[j].row !in states[j].nodes
    ensures CodesOk(m, states[i])
  {
    if i > 0 {
      RunsKeepCodes(cfg, m, ops, states, i - 1);
      RunsKeepGraph(cfg, m, ops, states, i - 1);
      assert Step(cfg, m, states[i - 1], ops[i - 1], states[i]);
      match ops[i - 1] {
        case Insert(row, v, picks) => InsertKeepsCodes(cfg, m, states[i - 1], states[i], row, v, picks);
        case Delete(row) => DeleteKeepsCodes(cfg, m, states[i - 1], states[i], row);
      }
    }
  }

  class Index {
    const cfg: Config
    const m: Metric
    const home: int -> nat
    var nodes: map<int, Node>
    var vectors: map<int, Vec>
    var medoid: Option<int>

    ghost function State(): Tables
      reads this
    {
      Tables(nodes, vectors, medoid)
    }

    ghost predicate Valid()
      reads this
    {
      1 <= cfg.width && GraphOk(cfg, State())
    }

    constructor (cfg: Config, m: Metric, home: int -> nat)
      requires 1 <= cfg.width
      ensures Valid() && State() == Tables(map[], map[], None)
      ensures this.cfg == cfg
    {
      this.cfg := cfg;
      this.m := m;
      this.home := home;
      nodes := map[];
      vectors := map[];
      medoid := None;
    }

    /** Algorithm 2: search, prune, write the node, add reverse edges. */
    method Insert(row: int, v: Vec) returns (ghost picks: seq<int>)
      requires Valid()
      modifies this
      ensures Valid()
      ensures Step(cfg, m, old(State()), Op.Insert(row, v, picks), State())
    {
      ghost var t := State();
      vectors := vectors[row := v];
      if medoid.None? {
        nodes := nodes[row := EmptyNode(cfg)];
        medoid := Some(row);
        picks := [];
        InsertKeepsGraph(cfg, m, t, State(), row, v, picks);
        return;
      }
      var chosen := ChooseNeighbours(row, v, t);
      picks := chosen;
      var node := WritePicks(cfg, m, chosen, vectors);
      nodes := nodes[row := node];
      LinkBack(chosen, row, m.quantize(v));
      InsertKeepsGraph(cfg, m, t, State(), row, v, picks);
    }

    method ChooseNeighbours(row: int, v: Vec, ghost t: Tables) returns (chosen: seq<int>)
      requires 1 <= cfg.width && GraphOk(cfg, t) && t.medoid.Some?
      requires State() == t.(vectors := t.vectors[row := v])
      ensures LegalPicks(cfg, t, row, chosen) && Picked(cfg, m, t, row, v, chosen)
    {
      hide Prune.ChosenNeighbours, Answered;
      var hits := FindCandidates(v);
      chosen := PickFrom(row, hits);
      assert PickedFrom(cfg, m, t, row, v, hits, chosen);
      AnsweredHits(cfg, m, t, row, v, hits);
      SearchGivesLegalPicks(cfg, m, t, row, v, hits, chosen);
    }

    method FindCandidates(v: Vec) returns (hits: seq<Bid>)
      requires 1 <= cfg.width && medoid.Some? && medoid.value in vectors
      ensures Answered(cfg, m, State(), v, hits)
    {
      var out, run := BeamSearch.Search(Tables(nodes, vectors, medoid), m, home, v, cfg.width, cfg.width, cfg.width);
      hits := out.hits;
    }

    method PickFrom(row: int, hits: seq<Bid>) returns (chosen: seq<int>)
      ensures chosen == Prune.ChosenNeighbours(hits, row, vectors, m, cfg.alpha, cfg.slots)
    {
      var rowids := new int[|hits|](i requires 0 <= i < |hits| => hits[i].rowid);
      var dists := new real[|hits|](i requires 0 <= i < |hits| => hits[i].distance);
      assert Prune.Loaded(rowids, dists, |hits|) == hits;
      chosen := Prune.RobustPrune(vectors, m, row, rowids, dists, |hits|, cfg.alpha, cfg.slots);
    }

    method LinkBack(picks: seq<int>, target: int, targetQ: QVec)
      requires DistinctIds(picks)
      modifies this`nodes
      ensures LinkedAll(m, old(nodes), nodes, vectors, picks, target, targetQ)
    {
      for i := 0 to |picks|
        invariant LinkedAll(m, old(nodes), nodes, vectors, picks[..i], target, targetQ)
      {
        var r := picks[i];
        assert r !in picks[..i];
        assert forall x :: x in picks[..i + 1] <==> x in picks[..i] || x == r;
        if r in nodes {
          var after := LinkNode(nodes[r], m, target, targetQ, QuantizedOf(m, vectors, r));
          nodes := nodes[r := after];
        }
      }
      assert picks[..|picks|] == picks;
    }

    /** Algorithm 3: repair the row's neighbours, remove it, replace the entry point,
        scrub every remaining reference. */
    method Delete(row: int)
      requires Valid()
      modifies this
      ensures Valid() && row !in nodes && !Dangles(State(), row)
      ensures Step(cfg, m, old(State()), Op.Delete(row), State())
    {
      ghost var t := State();
      if row in nodes {
        var ids := CollectIds(nodes[row]);
        assert NodeOk(cfg, nodes[row], row, nodes.Keys);
        RepairAll(row, ids);
        nodes := nodes - {row};
        vectors := vectors - {row};
        if medoid == Some(row) {
          medoid := AnyOf(vectors.Keys);
        }
        ScrubAll(row);
      }
      DeleteKeepsGraph(cfg, m, t, State(), row);
    }

    method RepairOne(r: int, row: int, ids: seq<int>)
      modifies this`nodes
      ensures nodes.Keys == old(nodes).Keys
      ensures forall x :: x in nodes && x != r ==> nodes[x] == old(nodes)[x]
      ensures r in nodes ==> nodes[r] == Repaired(cfg, old(nodes)[r], m, r, row, ids, vectors)
    {
      if r in nodes {
        var node := RepairNode(cfg, nodes[r], m, r, row, ids, vectors);
        nodes := nodes[r := node];
      }
    }

    method RepairAll(row: int, ids: seq<int>)
      requires row in nodes && NoRepeats(nodes[row]) && ids == ValidIds(nodes[row])
      modifies this`nodes
      ensures nodes.Keys == old(nodes).Keys
      ensures forall r :: r in nodes ==> nodes[r] == RepairedNode(cfg, m, old(State()), row, r)
    {
      ghost var t := State();
      ghost var done: set<int> := {};
      ValidIdsDistinct(nodes[row]);
      for i := 0 to |ids|
        invariant nodes.Keys == t.nodes.Keys
        invariant forall x :: x in done <==> x in ids[..i]
        invariant forall r :: r in nodes && r !in done ==> nodes[r] == t.nodes[r]
        invariant forall r :: r in nodes && r in done ==>
                    nodes[r] == Repaired(cfg, t.nodes[r], m, r, row, ids, t.vectors)
      {
        var r := ids[i];
        assert r !in done;
        RepairOne(r, row, ids);
        done := done + {r};
        assert ids[..i + 1] == ids[..i] + [r];
      }
      assert ids[..|ids|] == ids;
    }

    method ScrubAll(row: int)
      modifies this`nodes
      ensures nodes.Keys == old(nodes).Keys
      ensures forall r :: r in nodes ==> nodes[r] == Scrubbed(cfg, old(nodes)[r], row)
    {
      var todo := nodes.Keys;
      while true
        invariant todo <= nodes.Keys == old(nodes).Keys
        invariant forall r :: r in nodes ==> nodes[r] == if r in todo then old(nodes)[r]
                    else Scrubbed(cfg, old(nodes)[r], row)
        decreases todo
      {
        var r := AnyOf(todo);
        if r.None? {
          break;
        }
        var node := ScrubNode(cfg, nodes[r.value], row);
        nodes := nodes[r.value := node];
        todo := todo - {r.value};
      }
    }
  }

  lemma {:induction false} ValidIdsDistinct(node: Node)
    requires NoRepeats(node)
    ensures DistinctIds(ValidIds(node))
  {
    if node != [] {
      var last := |node| - 1;
      assert forall i :: 0 <= i < last ==> node[..last][i] == node[i];
      ValidIdsDistinct(node[..last]);
      ValidIdsAreNeighbours(node[..last]);
      assert node[last].valid ==> node[last].id !in Neighbours(node[..last]);
    }
  }
}
