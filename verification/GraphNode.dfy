/** One node's fixed row of neighbour slots, and what insertion, repair and scrubbing
    do to it. */
module GraphNode {
  import opened Wrappers
  import opened DiskAnnTables

  /** Column settings: slots per node, pruning factor, search width, and the value a
      cleared slot's quantized vector is zeroed to. */
  datatype Config = Config(slots: nat, alpha: real, width: nat, zero: QVec)

  function EmptySlot(cfg: Config): Slot {
    Slot(false, 0, cfg.zero)
  }

  function EmptyNode(cfg: Config): (node: Node) {
    seq(cfg.slots, _ => EmptySlot(cfg))
  }

  ghost predicate NoRepeats(node: Node) {
    forall i, j :: 0 <= i < j < |node| && node[i].valid && node[j].valid ==> node[i].id != node[j].id
  }

  /** The node of row `self` is well formed when only rows `rows` exist. */
  ghost predicate NodeOk(cfg: Config, node: Node, self: int, rows: set<int>) {
    |node| == cfg.slots && NoRepeats(node) && Neighbours(node) <= rows - {self}
  }

  /** First valid slot naming `row`, or `|node|`. */
  function SlotOf(node: Node, row: int): (i: nat)
    ensures i <= |node|
    ensures i < |node| ==> node[i].valid && node[i].id == row
    ensures forall k :: 0 <= k < i ==> !(node[k].valid && node[k].id == row)
  {
    if node == [] then 0 else if node[0].valid && node[0].id == row then 0 else 1 + SlotOf(node[1..], row)
  }

  lemma SlotOfFinds(node: Node, row: int)
    ensures SlotOf(node, row) < |node| <==> row in Neighbours(node)
  {
  }

  lemma SlotsFind(node: Node)
    ensures forall x :: SlotOf(node, x) == |node| <==> x !in Neighbours(node)
  {
    forall x {
      SlotOfFinds(node, x);
    }
  }

  method FindSlot(node: Node, row: int) returns (i: nat)
    ensures i == SlotOf(node, row)
  {
    i := 0;
    while i < |node| && !(node[i].valid && node[i].id == row)
      invariant i <= |node|
      invariant forall k :: 0 <= k < i ==> !(node[k].valid && node[k].id == row)
    {
      i := i + 1;
    }
    var s := SlotOf(node, row);
    assert s < |node| && node[s].valid && node[s].id == row ==> i <= s;
  }

  // ---- adding one reverse edge -------------------------------------------------------

  function ValidCount(node: Node): (n: nat)
    ensures n <= |node|
    ensures n < |node| <==> exists i :: 0 <= i < |node| && !node[i].valid
  {
    if node == [] then 0 else
      var last := |node| - 1;
      assert forall i :: 0 <= i < last ==> node[..last][i] == node[i];
      ValidCount(node[..last]) + if node[last].valid then 1 else 0
  }

  method CountValid(node: Node) returns (n: nat)
    ensures n == ValidCount(node)
  {
    n := 0;
    for i := 0 to |node|
      invariant n == ValidCount(node[..i])
    {
      assert node[..i + 1][..i] == node[..i];
      if node[i].valid {
        n := n + 1;
      }
    }
    assert node[..|node|] == node;
  }

  function FirstEmpty(node: Node): (i: nat)
    ensures i <= |node|
    ensures i < |node| ==> !node[i].valid
    ensures forall k :: 0 <= k < i ==> node[k].valid
  {
    if node == [] then 0 else if !node[0].valid then 0 else 1 + FirstEmpty(node[1..])
  }

  method FindEmpty(node: Node) returns (i: nat)
    ensures i == FirstEmpty(node)
  {
    i := 0;
    while i < |node| && node[i].valid
      invariant i <= |node|
      invariant forall k :: 0 <= k < i ==> node[k].valid
    {
      i := i + 1;
    }
    var s := FirstEmpty(node);
    assert s < |node| && !node[s].valid ==> i <= s;
  }

  /** The slot given up by a full node: the first at the greatest quantized distance,
      and further than the -1 the scan starts from. */
  ghost predicate IsWorst(node: Node, m: Metric, q: QVec, i: nat) {
    && i < |node| && node[i].valid && m.approx(q, node[i].qvec) > -1.0
    && (forall k :: 0 <= k < |node| && node[k].valid ==> m.approx(q, node[k].qvec) <= m.approx(q, node[i].qvec))
    && (forall k :: 0 <= k < i && node[k].valid ==> m.approx(q, node[k].qvec) < m.approx(q, node[i].qvec))
  }

  method FindWorst(node: Node, m: Metric, q: QVec) returns (w: Option<nat>)
    ensures w.Some? ==> IsWorst(node, m, q, w.value)
    ensures w.None? ==> forall i :: 0 <= i < |node| && node[i].valid ==> m.approx(q, node[i].qvec) <= -1.0
  {
    w := None;
    var worst := -1.0;
    for i := 0 to |node|
      invariant w.Some? ==> w.value < i && node[w.value].valid && worst == m.approx(q, node[w.value].qvec) > -1.0
      invariant w.Some? ==> forall k :: 0 <= k < w.value && node[k].valid ==> m.approx(q, node[k].qvec) < worst
      invariant w.None? ==> worst == -1.0
      invariant forall k :: 0 <= k < i && node[k].valid ==> m.approx(q, node[k].qvec) <= worst
    {
      if node[i].valid {
        var d := m.approx(q, node[i].qvec);
        if d > worst {
          worst := d;
          w := Some(i);
        }
      }
    }
  }

  function SetSlot(node: Node, i: nat, row: int, q: QVec): (r: Node)
    requires i < |node|
    ensures |r| == |node|
  {
    node[i := Slot(true, row, q)]
  }

  /** A full node meets a new target: the worst edge gives way to a strictly nearer
      target, or every edge the scan considers is at least as near as the target. */
  ghost predicate Displaced(node: Node, after: Node, m: Metric, target: int, targetQ: QVec, q: QVec) {
    || (after == node && forall i :: 0 <= i < |node| && node[i].valid && m.approx(q, node[i].qvec) > -1.0 ==>
          m.approx(q, node[i].qvec) <= m.approx(q, targetQ))
    || (exists i: nat :: IsWorst(node, m, q, i) && m.approx(q, targetQ) < m.approx(q, node[i].qvec)
          && after == SetSlot(node, i, target, targetQ))
  }

  /** What adding the edge to `target` may turn `node` into; `nodeQ` is the node's own
      quantized vector when it can be read. */
  ghost predicate Linked(node: Node, after: Node, m: Metric, target: int, targetQ: QVec, nodeQ: Option<QVec>) {
    if target in Neighbours(node) then after == node
    else if ValidCount(node) < |node| then after == SetSlot(node, FirstEmpty(node), target, targetQ)
    else if nodeQ.None? then after == node
    else Displaced(node, after, m, target, targetQ, nodeQ.value)
  }

  method LinkNode(node: Node, m: Metric, target: int, targetQ: QVec, nodeQ: Option<QVec>) returns (after: Node)
    ensures Linked(node, after, m, target, targetQ, nodeQ)
  {
    var count := CountValid(node);
    var at := FindSlot(node, target);
    SlotOfFinds(node, target);
    if at < |node| {
      return node;
    }
    if count < |node| {
      var e := FindEmpty(node);
      return SetSlot(node, e, target, targetQ);
    }
    if nodeQ.None? {
      return node;
    }
    var targetDist := m.approx(nodeQ.value, targetQ);
    var w := FindWorst(node, m, nodeQ.value);
    if w.Some? && targetDist < m.approx(nodeQ.value, node[w.value].qvec) {
      return SetSlot(node, w.value, target, targetQ);
    }
    return node;
  }

  lemma SetKeepsNodeOk(cfg: Config, node: Node, self: int, rows: set<int>, i: nat, row: int, q: QVec)
    requires NodeOk(cfg, node, self, rows) && i < |node|
    requires row in rows && row != self && row !in Neighbours(node)
    ensures NodeOk(cfg, SetSlot(node, i, row, q), self, rows)
    ensures row in Neighbours(SetSlot(node, i, row, q))
  {
    var r := SetSlot(node, i, row, q);
    assert r[i].valid && r[i].id == row;
  }

  /** A reverse edge keeps the node well formed. */
  lemma LinkKeepsNodeOk(cfg: Config, node: Node, after: Node, m: Metric, self: int, rows: set<int>, target: int,
                        targetQ: QVec, nodeQ: Option<QVec>)
    requires NodeOk(cfg, node, self, rows) && target in rows && target != self
    requires Linked(node, after, m, target, targetQ, nodeQ)
    ensures NodeOk(cfg, after, self, rows)
  {
    if target !in Neighbours(node) {
      if ValidCount(node) < |node| {
        SetKeepsNodeOk(cfg, node, self, rows, FirstEmpty(node), target, targetQ);
      } else if after != node {
        var i: nat :| IsWorst(node, m, nodeQ.value, i) && after == SetSlot(node, i, target, targetQ);
        SetKeepsNodeOk(cfg, node, self, rows, i, target, targetQ);
      }
    }
  }

  /** Some neighbour the scan considers is farther than the target. */
  ghost predicate HasFarther(node: Node, m: Metric, target: QVec, q: QVec) {
    exists i :: 0 <= i < |node| && node[i].valid && m.approx(q, node[i].qvec) > -1.0
             && m.approx(q, target) < m.approx(q, node[i].qvec)
  }

  /** Exactly when the edge is missing afterwards: the node was full of others and its own vector
      could not be read, or none of them was farther. Nothing was changed then. */
  lemma LinkOutcome(node: Node, after: Node, m: Metric, target: int, targetQ: QVec, nodeQ: Option<QVec>)
    requires Linked(node, after, m, target, targetQ, nodeQ)
    ensures target !in Neighbours(after) <==>
              && target !in Neighbours(node) && (forall i :: 0 <= i < |node| ==> node[i].valid)
              && (nodeQ.Some? ==> !HasFarther(node, m, targetQ, nodeQ.value))
    ensures target !in Neighbours(after) ==> after == node
  {
    if target !in Neighbours(node) {
      if ValidCount(node) < |node| {
        assert after[FirstEmpty(node)].valid && after[FirstEmpty(node)].id == target;
      } else if nodeQ.Some? && HasFarther(node, m, targetQ, nodeQ.value) {
        var i: nat :| IsWorst(node, m, nodeQ.value, i) && after == SetSlot(node, i, target, targetQ);
        assert after[i].valid && after[i].id == target;
      }
    }
  }

  /** An edge is only ever given up by a full node, for a strictly nearer target, and it is a
      farthest one. */
  lemma LinkGivesUp(node: Node, after: Node, m: Metric, target: int, targetQ: QVec, nodeQ: QVec, i: nat)
    requires Linked(node, after, m, target, targetQ, Some(nodeQ))
    requires i < |node| && node[i].valid && i < |after| && after[i] != node[i]
    ensures m.approx(nodeQ, targetQ) < m.approx(nodeQ, node[i].qvec) && forall k :: 0 <= k < |node| ==> node[k].valid
    ensures forall k :: 0 <= k < |node| ==> m.approx(nodeQ, node[k].qvec) <= m.approx(nodeQ, node[i].qvec)
    ensures after == node[i := Slot(true, target, targetQ)]
  {
    if ValidCount(node) == |node| {
      var w: nat :| IsWorst(node, m, nodeQ, w) && m.approx(nodeQ, targetQ) < m.approx(nodeQ, node[w].qvec)
          && after == SetSlot(node, w, target, targetQ);
    }
  }

  // ---- writing the picks of a new node ---------------------------------------------------

  function PickNode(cfg: Config, m: Metric, picks: seq<int>, vectors: map<int, Vec>): (node: Node)
    ensures |node| == cfg.slots
  {
    seq(cfg.slots, i requires 0 <= i => PickSlot(cfg, m, picks, vectors, i))
  }

  function PickSlot(cfg: Config, m: Metric, picks: seq<int>, vectors: map<int, Vec>, i: nat): Slot {
    if i < |picks| && picks[i] in vectors then Slot(true, picks[i], m.quantize(vectors[picks[i]])) else EmptySlot(cfg)
  }

  ghost predicate DistinctIds(ids: seq<int>) {
    forall i, j :: 0 <= i < j < |ids| ==> ids[i] != ids[j]
  }

  method WritePicks(cfg: Config, m: Metric, picks: seq<int>, vectors: map<int, Vec>) returns (node: Node)
    ensures node == PickNode(cfg, m, picks, vectors)
  {
    node := EmptyNode(cfg);
    var i := 0;
    while i < |picks| && i < cfg.slots
      invariant i <= |picks| && i <= cfg.slots && |node| == cfg.slots
      invariant forall k :: 0 <= k < i ==> node[k] == PickNode(cfg, m, picks, vectors)[k]
      invariant forall k :: i <= k < cfg.slots ==> node[k] == EmptySlot(cfg)
    {
      if picks[i] in vectors {
        node := SetSlot(node, i, picks[i], m.quantize(vectors[picks[i]]));
      }
      i := i + 1;
    }
  }

  lemma PickNodeOk(cfg: Config, m: Metric, picks: seq<int>, vectors: map<int, Vec>, self: int, rows: set<int>)
    requires DistinctIds(picks) && |picks| <= cfg.slots
    requires forall i :: 0 <= i < |picks| ==> picks[i] in rows && picks[i] != self && picks[i] in vectors
    ensures NodeOk(cfg, PickNode(cfg, m, picks, vectors), self, rows)
    ensures Neighbours(PickNode(cfg, m, picks, vectors)) == set i | 0 <= i < |picks| :: picks[i]
  {
    var node := PickNode(cfg, m, picks, vectors);
    assert forall i :: 0 <= i < |node| ==> node[i] == PickSlot(cfg, m, picks, vectors, i);
    forall i | 0 <= i < |picks|
      ensures picks[i] in Neighbours(node)
    {
      assert node[i].valid && node[i].id == picks[i];
    }
  }

  // ---- repairing a neighbour of a deleted row ----------------------------------------------

  function ClearSlot(cfg: Config, node: Node, i: nat): (r: Node)
    requires i < |node|
    ensures |r| == |node|
  {
    node[i := EmptySlot(cfg)]
  }

  /** Row `x` may take a slot freed in the node of row `self`. */
  ghost predicate Eligible(x: int, node: Node, self: int, deleted: int, vectors: map<int, Vec>) {
    x != self && x != deleted && x in vectors && x !in Neighbours(node)
  }

  /** First of `candidates` that may fill a slot freed in the node of row `self`. */
  function Filler(node: Node, self: int, deleted: int, candidates: seq<int>, vectors: map<int, Vec>): (c: Option<int>)
    ensures c.Some? ==> c.value in candidates && c.value != self && c.value != deleted && c.value in vectors
                        && SlotOf(node, c.value) == |node|
    ensures c.None? <==> forall x :: x in candidates ==> !Eligible(x, node, self, deleted, vectors)
  {
    assert forall x :: SlotOf(node, x) == |node| <==> x !in Neighbours(node) by { SlotsFind(node); }
    if candidates == [] then None
    else
      var c := candidates[0];
      if c != self && c != deleted && SlotOf(node, c) == |node| && c in vectors then Some(c)
      else Filler(node, self, deleted, candidates[1..], vectors)
  }

  /** Among those that may, the first takes the slot. */
  lemma {:induction false} FillerIsFirst(node: Node, self: int, deleted: int, candidates: seq<int>,
                                         vectors: map<int, Vec>)
    returns (i: nat)
    requires Filler(node, self, deleted, candidates, vectors).Some?
    ensures i < |candidates| && Filler(node, self, deleted, candidates, vectors) == Some(candidates[i])
    ensures Eligible(candidates[i], node, self, deleted, vectors)
    ensures forall j :: 0 <= j < i ==> !Eligible(candidates[j], node, self, deleted, vectors)
    decreases |candidates|
  {
    SlotsFind(node);
    var c := candidates[0];
    if Eligible(c, node, self, deleted, vectors) {
      i := 0;
    } else {
      var rest := FillerIsFirst(node, self, deleted, candidates[1..], vectors);
      i := rest + 1;
      assert forall j :: 0 < j < i ==> candidates[j] == candidates[1..][j - 1];
    }
  }

  method FindFiller(node: Node, self: int, deleted: int, candidates: seq<int>, vectors: map<int, Vec>)
    returns (c: Option<int>)
    ensures c == Filler(node, self, deleted, candidates, vectors)
  {
    for i := 0 to |candidates|
      invariant Filler(node, self, deleted, candidates, vectors)
                  == Filler(node, self, deleted, candidates[i..], vectors)
    {
      var x := candidates[i];
      if x == self || x == deleted {
        continue;
      }
      var at := FindSlot(node, x);
      if at < |node| || x !in vectors {
        continue;
      }
      return Some(x);
    }
    return None;
  }

  function Repaired(cfg: Config, node: Node, m: Metric, self: int, deleted: int, candidates: seq<int>,
                    vectors: map<int, Vec>): (r: Node)
    ensures |r| == |node|
  {
    var at := SlotOf(node, deleted);
    if at == |node| then node else
      var cleared := ClearSlot(cfg, node, at);
      match Filler(cleared, self, deleted, candidates, vectors)
      case None => cleared
      case Some(c) => SetSlot(cleared, at, c, m.quantize(vectors[c]))
  }

  lemma ClearDrops(cfg: Config, node: Node, i: nat)
    requires i < |node| && node[i].valid && NoRepeats(node)
    ensures NoRepeats(ClearSlot(cfg, node, i))
    ensures Neighbours(ClearSlot(cfg, node, i)) == Neighbours(node) - {node[i].id}
  {
    var r := ClearSlot(cfg, node, i);
    forall x | x in Neighbours(node) - {node[i].id}
      ensures x in Neighbours(r)
    {
      var k :| 0 <= k < |node| && node[k].valid && node[k].id == x;
      assert r[k] == node[k];
    }
  }

  lemma SetAdds(node: Node, i: nat, row: int, q: QVec)
    requires i < |node| && !node[i].valid && NoRepeats(node) && row !in Neighbours(node)
    ensures NoRepeats(SetSlot(node, i, row, q))
    ensures Neighbours(SetSlot(node, i, row, q)) == Neighbours(node) + {row}
  {
    var r := SetSlot(node, i, row, q);
    assert r[i].valid && r[i].id == row;
    forall x | x in Neighbours(node)
      ensures x in Neighbours(r)
    {
      var k :| 0 <= k < |node| && node[k].valid && node[k].id == x;
      assert r[k] == node[k];
    }
  }

  /** Repair drops the deleted row, keeps every other edge, and adds at most one, to
      a readable former neighbour of the deleted row; it adds one exactly when it dropped one
      and some candidate may take the slot. */
  lemma RepairEdges(cfg: Config, node: Node, m: Metric, self: int, deleted: int, candidates: seq<int>,
                    vectors: map<int, Vec>)
    requires NoRepeats(node)
    ensures var r := Repaired(cfg, node, m, self, deleted, candidates, vectors);
            && NoRepeats(r)
            && deleted !in Neighbours(r)
            && Neighbours(node) - {deleted} <= Neighbours(r)
            && (forall x :: x in Neighbours(r) - Neighbours(node) ==> x in candidates && x != self && x in vectors)
            && (Neighbours(r) - Neighbours(node) != {} <==>
                  && deleted in Neighbours(node)
                  && exists x :: x in candidates && Eligible(x, node, self, deleted, vectors))
            && forall x, y :: x in Neighbours(r) - Neighbours(node) && y in Neighbours(r) - Neighbours(node) ==> x == y
  {
    SlotOfFinds(node, deleted);
    var at := SlotOf(node, deleted);
    if at < |node| {
      ClearDrops(cfg, node, at);
      var cleared := ClearSlot(cfg, node, at);
      var f := Filler(cleared, self, deleted, candidates, vectors);
      assert forall x :: Eligible(x, cleared, self, deleted, vectors) <==> Eligible(x, node, self, deleted, vectors);
      if f.Some? {
        SlotOfFinds(cleared, f.value);
        SetAdds(cleared, at, f.value, m.quantize(vectors[f.value]));
        assert Eligible(f.value, node, self, deleted, vectors);
        assert f.value in Neighbours(SetSlot(cleared, at, f.value, m.quantize(vectors[f.value]))) - Neighbours(node);
      }
    }
  }

  method RepairNode(cfg: Config, node: Node, m: Metric, self: int, deleted: int, candidates: seq<int>,
                    vectors: map<int, Vec>)
    returns (r: Node)
    ensures r == Repaired(cfg, node, m, self, deleted, candidates, vectors)
  {
    var at := FindSlot(node, deleted);
    if at == |node| {
      return node;
    }
    r := ClearSlot(cfg, node, at);
    var f := FindFiller(r, self, deleted, candidates, vectors);
    if f.Some? {
      r := SetSlot(r, at, f.value, m.quantize(vectors[f.value]));
    }
  }

  // ---- scrubbing ---------------------------------------------------------------------------

  function Scrubbed(cfg: Config, node: Node, deleted: int): (r: Node)
    ensures |r| == |node|
  {
    seq(|node|, i requires 0 <= i < |node| =>
      if node[i].valid && node[i].id == deleted then EmptySlot(cfg) else node[i])
  }

  method ScrubNode(cfg: Config, node: Node, deleted: int) returns (r: Node)
    ensures r == Scrubbed(cfg, node, deleted)
  {
    r := node;
    for i := 0 to |node|
      invariant |r| == |node|
      invariant forall k :: 0 <= k < i ==> r[k] == Scrubbed(cfg, node, deleted)[k]
      invariant forall k :: i <= k < |node| ==> r[k] == node[k]
    {
      if r[i].valid && r[i].id == deleted {
        r := ClearSlot(cfg, r, i);
      }
    }
  }

  /** Scrubbing removes exactly the edges to the deleted row. */
  lemma ScrubEdges(cfg: Config, node: Node, deleted: int)
    ensures Neighbours(Scrubbed(cfg, node, deleted)) == Neighbours(node) - {deleted}
    ensures NoRepeats(node) ==> NoRepeats(Scrubbed(cfg, node, deleted))
  {
    var r := Scrubbed(cfg, node, deleted);
    forall x | x in Neighbours(node) - {deleted}
      ensures x in Neighbours(r)
    {
      var k :| 0 <= k < |node| && node[k].valid && node[k].id == x;
      assert r[k] == node[k];
    }
  }

  /** Valid neighbour ids in slot order. */
  function ValidIds(node: Node): (ids: seq<int>) {
    if node == [] then [] else
      var last := |node| - 1;
      ValidIds(node[..last]) + if node[last].valid then [node[last].id] else []
  }

  lemma {:induction false} ValidIdsAreNeighbours(node: Node)
    ensures forall x :: x in ValidIds(node) <==> x in Neighbours(node)
  {
    if node != [] {
      var last := |node| - 1;
      ValidIdsAreNeighbours(node[..last]);
      assert node == node[..last] + [node[last]];
      forall x
        ensures x in Neighbours(node) <==> x in Neighbours(node[..last]) || (node[last].valid && node[last].id == x)
      {
        if i :| 0 <= i < last && node[..last][i].valid && node[..last][i].id == x {
          assert node[i].valid && node[i].id == x;
        }
        if i :| 0 <= i < last && node[i].valid && node[i].id == x {
          assert node[..last][i].valid && node[..last][i].id == x;
        }
      }
    }
  }

  method CollectIds(node: Node) returns (ids: seq<int>)
    ensures ids == ValidIds(node)
  {
    ids := [];
    for i := 0 to |node|
      invariant ids == ValidIds(node[..i])
    {
      assert node[..i + 1][..i] == node[..i];
      if node[i].valid {
        ids := ids + [node[i].id];
      }
    }
    assert node[..|node|] == node;
  }
}
