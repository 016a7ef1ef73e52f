/** Lloyd's k-means in exact arithmetic: the total squared distance never increases,
    empty-cluster reseeding included, and an early stop is a genuine fixed point. */
module KMeans {

  type Vec = seq<real>

  ghost predicate Shape(vectors: seq<Vec>, dim: nat) {
    forall i :: 0 <= i < |vectors| ==> |vectors[i]| == dim
  }

  /** Squared distance over the first `d` coordinates. */
  function Dist(a: Vec, b: Vec, d: nat): (s: real)
    requires d <= |a| && d <= |b|
    ensures s >= 0.0
  {
    if d == 0 then 0.0 else Dist(a, b, d - 1) + (a[d - 1] - b[d - 1]) * (a[d - 1] - b[d - 1])
  }

  method L2Dist(a: Vec, b: Vec, dim: nat) returns (sum: real)
    requires |a| == |b| == dim
    ensures sum == Dist(a, b, dim)
  {
    sum := 0.0;
    for d := 0 to dim
      invariant sum == Dist(a, b, d)
    {
      var diff := a[d] - b[d];
      sum := sum + diff * diff;
    }
  }

  // ---- nearest centroid ------------------------------------------------------------

  /** `c` is the first centroid at least distance from `v`. */
  ghost predicate IsNearest(v: Vec, centroids: seq<Vec>, dim: nat, c: nat)
    requires |v| == dim && Shape(centroids, dim)
  {
    && c < |centroids|
    && (forall b :: 0 <= b < |centroids| ==> Dist(v, centroids[c], dim) <= Dist(v, centroids[b], dim))
    && (forall b :: 0 <= b < c ==> Dist(v, centroids[c], dim) < Dist(v, centroids[b], dim))
  }

  method NearestCentroid(v: Vec, centroids: seq<Vec>, dim: nat) returns (best: nat)
    requires |v| == dim && Shape(centroids, dim) && centroids != []
    ensures IsNearest(v, centroids, dim, best)
  {
    best := 0;
    var minDist := L2Dist(v, centroids[0], dim);
    for c := 1 to |centroids|
      invariant best < c && minDist == Dist(v, centroids[best], dim)
      invariant forall b :: 0 <= b < c ==> minDist <= Dist(v, centroids[b], dim)
      invariant forall b :: 0 <= b < best ==> minDist < Dist(v, centroids[b], dim)
    {
      var dist := L2Dist(v, centroids[c], dim);
      if dist < minDist {
        minDist := dist;
        best := c;
      }
    }
  }

  // ---- cost ----------------------------------------------------------------------------

  ghost predicate Assigns(n: nat, k: nat, assign: seq<nat>) {
    |assign| == n && forall i :: 0 <= i < n ==> assign[i] < k
  }

  /** Total squared distance of the first `n` vectors to their centroids. */
  ghost function Cost(vectors: seq<Vec>, assign: seq<nat>, centroids: seq<Vec>, dim: nat, n: nat): (s: real)
    requires Shape(vectors, dim) && Shape(centroids, dim) && Assigns(|vectors|, |centroids|, assign) && n <= |vectors|
  {
    if n == 0 then 0.0 else
      Cost(vectors, assign, centroids, dim, n - 1) + Dist(vectors[n - 1], centroids[assign[n - 1]], dim)
  }

  ghost function TotalCost(vectors: seq<Vec>, assign: seq<nat>, centroids: seq<Vec>, dim: nat): (s: real)
    requires Shape(vectors, dim) && Shape(centroids, dim) && Assigns(|vectors|, |centroids|, assign)
  {
    Cost(vectors, assign, centroids, dim, |vectors|)
  }

  ghost predicate AllNearest(vectors: seq<Vec>, assign: seq<nat>, centroids: seq<Vec>, dim: nat)
    requires Shape(vectors, dim) && Shape(centroids, dim)
  {
    |assign| == |vectors| && forall i :: 0 <= i < |vectors| ==> IsNearest(vectors[i], centroids, dim, assign[i])
  }

  /** Reassigning every vector to a nearest centroid costs no more than any other assignment. */
  lemma {:induction false} NearestIsCheapest(vectors: seq<Vec>, old': seq<nat>, new': seq<nat>, centroids: seq<Vec>,
                                             dim: nat, n: nat)
    requires Shape(vectors, dim) && Shape(centroids, dim) && n <= |vectors|
    requires Assigns(|vectors|, |centroids|, old') && AllNearest(vectors, new', centroids, dim)
    ensures Cost(vectors, new', centroids, dim, n) <= Cost(vectors, old', centroids, dim, n)
  {
    if n > 0 {
      NearestIsCheapest(vectors, old', new', centroids, dim, n - 1);
      assert IsNearest(vectors[n - 1], centroids, dim, new'[n - 1]);
    }
  }

  // ---- the mean of a cluster minimises its cost ------------------------------------------

  /** Members of cluster `c` among the first `n` vectors. */
  ghost function Count(assign: seq<nat>, c: nat, n: nat): (m: nat)
    requires n <= |assign|
  {
    if n == 0 then 0 else Count(assign, c, n - 1) + if assign[n - 1] == c then 1 else 0
  }

  /** Sum of coordinate `d` over those members. */
  ghost function Sum(vectors: seq<Vec>, assign: seq<nat>, c: nat, d: nat, n: nat): (s: real)
    requires n <= |vectors| && n <= |assign| && forall i :: 0 <= i < n ==> d < |vectors[i]|
  {
    if n == 0 then 0.0 else Sum(vectors, assign, c, d, n - 1) + if assign[n - 1] == c then vectors[n - 1][d] else 0.0
  }

  ghost function SumSquares(vectors: seq<Vec>, assign: seq<nat>, c: nat, d: nat, n: nat): (s: real)
    requires n <= |vectors| && n <= |assign| && forall i :: 0 <= i < n ==> d < |vectors[i]|
  {
    if n == 0 then 0.0 else
      SumSquares(vectors, assign, c, d, n - 1) + if assign[n - 1] == c then vectors[n - 1][d] * vectors[n - 1][d]
          else 0.0
  }

  /** Cost of cluster `c` in coordinate `d` around `x`. */
  ghost function Spread(vectors: seq<Vec>, assign: seq<nat>, c: nat, d: nat, x: real, n: nat): (s: real)
    requires n <= |vectors| && n <= |assign| && forall i :: 0 <= i < n ==> d < |vectors[i]|
  {
    if n == 0 then 0.0 else
      Spread(vectors, assign, c, d, x, n - 1)
      + if assign[n - 1] == c then (vectors[n - 1][d] - x) * (vectors[n - 1][d] - x) else 0.0
  }

  /** Cost of cluster `c` around point `p`, over the first `dims` coordinates. */
  ghost function ClusterCost(vectors: seq<Vec>, assign: seq<nat>, c: nat, p: Vec, dims: nat, n: nat): (s: real)
    requires n <= |vectors| && n <= |assign| && dims <= |p| && forall i :: 0 <= i < n ==> dims <= |vectors[i]|
  {
    if n == 0 then 0.0 else
      ClusterCost(vectors, assign, c, p, dims, n - 1) + if assign[n - 1] == c then Dist(vectors[n - 1], p, dims)
          else 0.0
  }

  /** Sum of (v - x)^2 over k values with sum s and sum of squares q. */
  ghost function Quadratic(q: real, s: real, k: real, x: real): real {
    q - 2.0 * (x * s) + k * (x * x)
  }

  lemma QuadraticStart(x: real)
    ensures Quadratic(0.0, 0.0, 0.0, x) == 0.0
  {
  }

  lemma QuadraticStep(q: real, s: real, k: real, x: real, v: real)
    ensures Quadratic(q + v * v, s + v, k + 1.0, x) == Quadratic(q, s, k, x) + (v - x) * (v - x)
  {
  }

  /** Completing the square: the least value is at s / k. */
  lemma QuadraticMinimum(q: real, s: real, k: real, mean: real, x: real)
    requires k >= 0.0 && mean * k == s
    ensures Quadratic(q, s, k, mean) <= Quadratic(q, s, k, x)
  {
    var diff := x - mean;
    assert diff * diff >= 0.0;
    assert k * (diff * diff) >= 0.0;
    assert k * (diff * diff) == k * (x * x) - 2.0 * (x * (mean * k)) + mean * (mean * k);
    assert k * (mean * mean) == mean * (mean * k);
  }

  lemma {:induction false} SpreadIsQuadratic(vectors: seq<Vec>, assign: seq<nat>, c: nat, d: nat, x: real, n: nat)
    requires n <= |vectors| && n <= |assign| && forall i :: 0 <= i < n ==> d < |vectors[i]|
    ensures Spread(vectors, assign, c, d, x, n) ==
              Quadratic(SumSquares(vectors, assign, c, d, n), Sum(vectors, assign, c, d, n),
                  Count(assign, c, n) as real, x)
  {
    hide Quadratic;
    if n == 0 {
      QuadraticStart(x);
    } else {
      SpreadIsQuadratic(vectors, assign, c, d, x, n - 1);
      if assign[n - 1] == c {
        var v := vectors[n - 1][d];
        var q, s, k := SumSquares(vectors, assign, c, d, n - 1), Sum(vectors, assign, c, d, n - 1),
            Count(assign, c, n - 1) as real;
        QuadraticStep(q, s, k, x, v);
        assert SumSquares(vectors, assign, c, d, n) == q + v * v;
        assert Sum(vectors, assign, c, d, n) == s + v;
        assert Count(assign, c, n) as real == k + 1.0;
      }
    }
  }

  /** In one coordinate, the mean is the cheapest centre. */
  lemma MeanMinimisesSpread(vectors: seq<Vec>, assign: seq<nat>, c: nat, d: nat, mean: real, x: real, n: nat)
    requires n <= |vectors| && n <= |assign| && forall i :: 0 <= i < n ==> d < |vectors[i]|
    requires MeanAt(vectors, assign, c, d, mean, n)
    ensures Spread(vectors, assign, c, d, mean, n) <= Spread(vectors, assign, c, d, x, n)
  {
    SpreadIsQuadratic(vectors, assign, c, d, mean, n);
    SpreadIsQuadratic(vectors, assign, c, d, x, n);
    QuadraticMinimum(SumSquares(vectors, assign, c, d, n), Sum(vectors, assign, c, d, n),
                     Count(assign, c, n) as real, mean, x);
  }

  ghost predicate MeanAt(vectors: seq<Vec>, assign: seq<nat>, c: nat, d: nat, mean: real, n: nat)
    requires n <= |vectors| && n <= |assign| && forall i :: 0 <= i < n ==> d < |vectors[i]|
  {
    mean * (Count(assign, c, n) as real) == Sum(vectors, assign, c, d, n)
  }

  /** Cluster cost adds up coordinate by coordinate. */
  lemma {:induction false} ClusterCostSplits(vectors: seq<Vec>, assign: seq<nat>, c: nat, p: Vec, dims: nat, n: nat)
    requires n <= |vectors| && n <= |assign| && 0 < dims <= |p| && forall i :: 0 <= i < n ==> dims <= |vectors[i]|
    ensures ClusterCost(vectors, assign, c, p, dims, n) ==
              ClusterCost(vectors, assign, c, p, dims - 1, n) + Spread(vectors, assign, c, dims - 1, p[dims - 1], n)
  {
    if n > 0 {
      ClusterCostSplits(vectors, assign, c, p, dims, n - 1);
    }
  }

  lemma {:induction false} ClusterCostZero(vectors: seq<Vec>, assign: seq<nat>, c: nat, p: Vec, n: nat)
    requires n <= |vectors| && n <= |assign|
    ensures ClusterCost(vectors, assign, c, p, 0, n) == 0.0
  {
    if n > 0 {
      ClusterCostZero(vectors, assign, c, p, n - 1);
    }
  }

  /** `p` is the mean of cluster `c`. */
  ghost predicate IsMean(vectors: seq<Vec>, assign: seq<nat>, c: nat, p: Vec, dim: nat)
    requires Shape(vectors, dim) && |assign| == |vectors|
  {
    |p| == dim && forall d :: 0 <= d < dim ==> MeanAt(vectors, assign, c, d, p[d], |vectors|)
  }

  lemma {:induction false} MeanMinimisesCluster(vectors: seq<Vec>, assign: seq<nat>, c: nat, mean: Vec, p: Vec,
                                                dim: nat, dims: nat)
    requires Shape(vectors, dim) && |assign| == |vectors| && |p| == dim && dims <= dim
    requires IsMean(vectors, assign, c, mean, dim)
    ensures ClusterCost(vectors, assign, c, mean, dims, |vectors|) <= ClusterCost(vectors, assign, c, p, dims,
              |vectors|)
  {
    var n := |vectors|;
    if dims == 0 {
      ClusterCostZero(vectors, assign, c, mean, n);
      ClusterCostZero(vectors, assign, c, p, n);
    } else {
      var d := dims - 1;
      MeanMinimisesCluster(vectors, assign, c, mean, p, dim, d);
      CoordinateStep(vectors, assign, c, mean, p, dim, d);
    }
  }

  lemma CoordinateStep(vectors: seq<Vec>, assign: seq<nat>, c: nat, mean: Vec, p: Vec, dim: nat, d: nat)
    requires Shape(vectors, dim) && |assign| == |vectors| && |mean| == |p| == dim && d < dim
    requires MeanAt(vectors, assign, c, d, mean[d], |vectors|)
    ensures ClusterCost(vectors, assign, c, mean, d + 1, |vectors|) - ClusterCost(vectors, assign, c, mean, d,
              |vectors|)
              <= ClusterCost(vectors, assign, c, p, d + 1, |vectors|) - ClusterCost(vectors, assign, c, p, d, |vectors|)
  {
    ClusterCostSplits(vectors, assign, c, mean, d + 1, |vectors|);
    ClusterCostSplits(vectors, assign, c, p, d + 1, |vectors|);
    MeanMinimisesSpread(vectors, assign, c, d, mean[d], p[d], |vectors|);
  }

  /** Moving one centroid changes the total cost by that cluster's change. */
  lemma {:induction false} CostAfterMove(vectors: seq<Vec>, assign: seq<nat>, centroids: seq<Vec>, dim: nat, c: nat,
                                         p: Vec, n: nat)
    requires Shape(vectors, dim) && Shape(centroids, dim) && Assigns(|vectors|, |centroids|, assign) && n <= |vectors|
    requires c < |centroids| && |p| == dim
    ensures Cost(vectors, assign, centroids[c := p], dim, n) - Cost(vectors, assign, centroids, dim, n)
              == ClusterCost(vectors, assign, c, p, dim, n) - ClusterCost(vectors, assign, c, centroids[c], dim, n)
  {
    if n > 0 {
      CostAfterMove(vectors, assign, centroids, dim, c, p, n - 1);
    }
  }

  lemma {:induction false} EmptyClusterCost(vectors: seq<Vec>, assign: seq<nat>, c: nat, p: Vec, dim: nat, n: nat)
    requires Shape(vectors, dim) && |assign| == |vectors| && |p| == dim && n <= |vectors|
    requires Count(assign, c, n) == 0
    ensures ClusterCost(vectors, assign, c, p, dim, n) == 0.0
  {
    if n > 0 {
      EmptyClusterCost(vectors, assign, c, p, dim, n - 1);
    }
  }

  /** The update step for one cluster never raises the cost: a non-empty cluster moves
      to its mean, an empty one carries no vector wherever it is reseeded. */
  lemma UpdateNeverRaises(vectors: seq<Vec>, assign: seq<nat>, centroids: seq<Vec>, dim: nat, c: nat, p: Vec)
    requires Shape(vectors, dim) && Shape(centroids, dim) && Assigns(|vectors|, |centroids|, assign)
    requires c < |centroids| && |p| == dim
    requires Count(assign, c, |vectors|) == 0 || IsMean(vectors, assign, c, p, dim)
    ensures TotalCost(vectors, assign, centroids[c := p], dim) <= TotalCost(vectors, assign, centroids, dim)
  {
    CostAfterMove(vectors, assign, centroids, dim, c, p, |vectors|);
    if Count(assign, c, |vectors|) == 0 {
      EmptyClusterCost(vectors, assign, c, p, dim, |vectors|);
      EmptyClusterCost(vectors, assign, c, centroids[c], dim, |vectors|);
    } else {
      MeanMinimisesCluster(vectors, assign, c, p, centroids[c], dim, dim);
    }
  }

  // ---- one update pass over all clusters ---------------------------------------------------

  /** `i` is the first vector furthest from its own centroid. */
  ghost predicate IsFarthest(vectors: seq<Vec>, assign: seq<nat>, centroids: seq<Vec>, dim: nat, i: nat)
    requires Shape(vectors, dim) && Shape(centroids, dim) && Assigns(|vectors|, |centroids|, assign)
  {
    && i < |vectors|
    && (forall b :: 0 <= b < |vectors| ==>
        OwnDist(vectors, assign, centroids, dim, b) <= OwnDist(vectors, assign, centroids, dim, i))
    && (forall b :: 0 <= b < i ==>
        OwnDist(vectors, assign, centroids, dim, b) < OwnDist(vectors, assign, centroids, dim, i))
  }

  ghost function OwnDist(vectors: seq<Vec>, assign: seq<nat>, centroids: seq<Vec>, dim: nat, i: nat): (s: real)
    requires Shape(vectors, dim) && Shape(centroids, dim) && Assigns(|vectors|, |centroids|, assign) && i < |vectors|
  {
    Dist(vectors[i], centroids[assign[i]], dim)
  }

  /** Centroids while the pass is at cluster `j`: new in front of it, old from it on. */
  ghost function Mixed(before: seq<Vec>, after: seq<Vec>, j: nat): (m: seq<Vec>)
    requires j <= |before| == |after|
    ensures |m| == |before|
  {
    after[..j] + before[j..]
  }

  /** What the pass makes of cluster `j`: its mean, or, when empty, the vector then
      furthest from its own centroid. */
  ghost predicate UpdatedAt(vectors: seq<Vec>, assign: seq<nat>, before: seq<Vec>, after: seq<Vec>, dim: nat, j: nat)
    requires Shape(vectors, dim) && Shape(before, dim) && Shape(after, dim)
    requires j < |before| == |after| && Assigns(|vectors|, |before|, assign)
  {
    if Count(assign, j, |vectors|) > 0 then IsMean(vectors, assign, j, after[j], dim)
    else exists i: nat :: IsFarthest(vectors, assign, Mixed(before, after, j), dim, i) && after[j] == vectors[i]
  }

  ghost predicate Updated(vectors: seq<Vec>, assign: seq<nat>, before: seq<Vec>, after: seq<Vec>, dim: nat)
    requires Shape(vectors, dim)
  {
    && Shape(before, dim) && Shape(after, dim) && |before| == |after| && Assigns(|vectors|, |before|, assign)
    && forall j :: 0 <= j < |before| ==> UpdatedAt(vectors, assign, before, after, dim, j)
  }

  lemma {:induction false} UpdatePassNeverRaises(vectors: seq<Vec>, assign: seq<nat>, before: seq<Vec>,
                                                 after: seq<Vec>, dim: nat, j: nat)
    requires Shape(vectors, dim) && Updated(vectors, assign, before, after, dim) && j <= |before|
    ensures TotalCost(vectors, assign, Mixed(before, after, j), dim) <= TotalCost(vectors, assign, before, dim)
  {
    if j == 0 {
      assert Mixed(before, after, 0) == before;
    } else {
      UpdatePassNeverRaises(vectors, assign, before, after, dim, j - 1);
      var m := Mixed(before, after, j - 1);
      assert Mixed(before, after, j) == m[j - 1 := after[j - 1]];
      assert UpdatedAt(vectors, assign, before, after, dim, j - 1);
      UpdateNeverRaises(vectors, assign, m, dim, j - 1, after[j - 1]);
    }
  }

  // ---- runs -----------------------------------------------------------------------------------

  /** One iteration right after its assignment step. */
  datatype Iteration = Iteration(assign: seq<nat>, centroids: seq<Vec>)

  ghost predicate Assigned(vectors: seq<Vec>, dim: nat, it: Iteration)
    requires Shape(vectors, dim)
  {
    && Shape(it.centroids, dim) && Assigns(|vectors|, |it.centroids|, it.assign)
    && AllNearest(vectors, it.assign, it.centroids, dim)
  }

  ghost predicate IsLloydRun(vectors: seq<Vec>, dim: nat, run: seq<Iteration>)
    requires Shape(vectors, dim)
  {
    && (forall t :: 0 <= t < |run| ==> Assigned(vectors, dim, run[t]))
    && (forall t :: 0 < t < |run| ==> Updated(vectors, run[t - 1].assign, run[t - 1].centroids, run[t].centroids, dim))
  }

  ghost function IterationCost(vectors: seq<Vec>, dim: nat, it: Iteration): (s: real)
    requires Shape(vectors, dim) && Assigned(vectors, dim, it)
  {
    TotalCost(vectors, it.assign, it.centroids, dim)
  }

  lemma IterationDescends(vectors: seq<Vec>, dim: nat, a: Iteration, b: Iteration)
    requires Shape(vectors, dim) && Assigned(vectors, dim, a) && Assigned(vectors, dim, b)
    requires Updated(vectors, a.assign, a.centroids, b.centroids, dim)
    ensures IterationCost(vectors, dim, b) <= IterationCost(vectors, dim, a)
  {
    UpdatePassNeverRaises(vectors, a.assign, a.centroids, b.centroids, dim, |a.centroids|);
    assert Mixed(a.centroids, b.centroids, |a.centroids|) == b.centroids;
    NearestIsCheapest(vectors, a.assign, b.assign, b.centroids, dim, |vectors|);
  }

  /** Lloyd descent: along any run the cost never increases. */
  lemma {:induction false} RunDescends(vectors: seq<Vec>, dim: nat, run: seq<Iteration>, s: nat, t: nat)
    requires Shape(vectors, dim) && IsLloydRun(vectors, dim, run) && s <= t < |run|
    ensures IterationCost(vectors, dim, run[t]) <= IterationCost(vectors, dim, run[s])
    decreases t
  {
    if s < t {
      RunDescends(vectors, dim, run, s, t - 1);
      IterationDescends(vectors, dim, run[t - 1], run[t]);
    }
  }

  /** Every vector at a nearest centroid, every non-empty cluster at its mean. */
  ghost predicate FixedPoint(vectors: seq<Vec>, dim: nat, it: Iteration)
    requires Shape(vectors, dim)
  {
    && Assigned(vectors, dim, it)
    && forall c :: 0 <= c < |it.centroids| && Count(it.assign, c, |vectors|) > 0 ==>
         IsMean(vectors, it.assign, c, it.centroids[c], dim)
  }

  /** An iteration whose assignment equals the previous one is a fixed point. */
  lemma UnchangedIsFixed(vectors: seq<Vec>, dim: nat, run: seq<Iteration>)
    requires Shape(vectors, dim) && IsLloydRun(vectors, dim, run) && |run| >= 2
    requires run[|run| - 1].assign == run[|run| - 2].assign
    ensures FixedPoint(vectors, dim, run[|run| - 1])
  {
    var t := |run| - 1;
    assert Updated(vectors, run[t - 1].assign, run[t - 1].centroids, run[t].centroids, dim);
    forall c | 0 <= c < |run[t].centroids| && Count(run[t].assign, c, |vectors|) > 0
      ensures IsMean(vectors, run[t].assign, c, run[t].centroids[c], dim)
    {
      assert UpdatedAt(vectors, run[t - 1].assign, run[t - 1].centroids, run[t].centroids, dim, c);
    }
  }

  // ---- the algorithm ------------------------------------------------------------------------------

  /** Move every vector to its nearest centroid; report whether any moved. */
  method AssignAll(vectors: seq<Vec>, dim: nat, centroids: seq<Vec>, assign: array<int>) returns (changed: bool)
    requires Shape(vectors, dim) && Shape(centroids, dim) && centroids != [] && assign.Length == |vectors|
    modifies assign
    ensures forall i :: 0 <= i < |vectors| ==>
              0 <= assign[i] < |centroids| && IsNearest(vectors[i], centroids, dim, assign[i])
    ensures changed <==> assign[..] != old(assign[..])
  {
    changed := false;
    for i := 0 to |vectors|
      invariant forall k :: 0 <= k < i ==>
                  0 <= assign[k] < |centroids| && IsNearest(vectors[k], centroids, dim, assign[k])
      invariant forall k :: i <= k < |vectors| ==> assign[k] == old(assign[k])
      invariant !changed ==> assign[..] == old(assign[..])
      invariant changed ==> exists k :: 0 <= k < i && assign[k] != old(assign[k])
    {
      var nearest := NearestCentroid(vectors[i], centroids, dim);
      if nearest != assign[i] {
        assign[i] := nearest;
        changed := true;
      }
    }
  }

  method Accumulate(vectors: seq<Vec>, dim: nat, assign: seq<nat>, k: nat, sums: array2<real>, counts: array<nat>)
    requires Shape(vectors, dim) && Assigns(|vectors|, k, assign)
    requires sums.Length0 == k && sums.Length1 == dim && counts.Length == k
    requires forall c, d :: 0 <= c < k && 0 <= d < dim ==> sums[c, d] == 0.0
    requires forall c :: 0 <= c < k ==> counts[c] == 0
    modifies sums, counts
    ensures forall c, d :: 0 <= c < k && 0 <= d < dim ==> sums[c, d] == Sum(vectors, assign, c, d, |vectors|)
    ensures forall c :: 0 <= c < k ==> counts[c] == Count(assign, c, |vectors|)
  {
    for i := 0 to |vectors|
      invariant forall c, d :: 0 <= c < k && 0 <= d < dim ==> sums[c, d] == Sum(vectors, assign, c, d, i)
      invariant forall c :: 0 <= c < k ==> counts[c] == Count(assign, c, i)
    {
      var a := assign[i];
      counts[a] := counts[a] + 1;
      for d := 0 to dim
        invariant forall c, e :: 0 <= c < k && 0 <= e < dim ==>
          sums[c, e] == if c == a && e < d then Sum(vectors, assign, c, e, i) + vectors[i][e]
              else Sum(vectors, assign, c, e, i)
        invariant forall c :: 0 <= c < k ==> counts[c] == Count(assign, c, i + 1)
      {
        sums[a, d] := sums[a, d] + vectors[i][d];
      }
    }
  }

  method FindFarthest(vectors: seq<Vec>, dim: nat, assign: seq<nat>, centroids: seq<Vec>) returns (farthest: nat)
    requires Shape(vectors, dim) && Shape(centroids, dim) && Assigns(|vectors|, |centroids|, assign) && vectors != []
    ensures IsFarthest(vectors, assign, centroids, dim, farthest)
  {
    var maxDist := -1.0;
    farthest := 0;
    for i := 0 to |vectors|
      invariant i == 0 ==> maxDist == -1.0 && farthest == 0
      invariant i > 0 ==> farthest < i && maxDist == OwnDist(vectors, assign, centroids, dim, farthest)
      invariant forall b :: 0 <= b < i ==> OwnDist(vectors, assign, centroids, dim, b) <= maxDist
      invariant forall b :: 0 <= b < farthest ==> OwnDist(vectors, assign, centroids, dim, b) < maxDist
    {
      var d := L2Dist(vectors[i], centroids[assign[i]], dim);
      if d > maxDist {
        maxDist := d;
        farthest := i;
      }
    }
  }

  method MeanOf(sums: array2<real>, c: nat, count: nat, dim: nat) returns (mean: Vec)
    requires c < sums.Length0 && sums.Length1 == dim && count > 0
    ensures |mean| == dim && forall d :: 0 <= d < dim ==> mean[d] == sums[c, d] / (count as real)
  {
    mean := [];
    for d := 0 to dim
      invariant |mean| == d && forall e :: 0 <= e < d ==> mean[e] == sums[c, e] / (count as real)
    {
      mean := mean + [sums[c, d] / (count as real)];
    }
  }

  lemma QuotientIsMean(vectors: seq<Vec>, assign: seq<nat>, c: nat, mean: Vec, dim: nat)
    requires Shape(vectors, dim) && |assign| == |vectors| && |mean| == dim && Count(assign, c, |vectors|) > 0
    requires forall d :: 0 <= d < dim ==>
               mean[d] == Sum(vectors, assign, c, d, |vectors|) / (Count(assign, c, |vectors|) as real)
    ensures IsMean(vectors, assign, c, mean, dim)
  {
  }

  /** Replace every centroid in place, in cluster order. */
  method UpdateAll(vectors: seq<Vec>, dim: nat, assign: seq<nat>, centroids: array<Vec>)
    requires Shape(vectors, dim) && vectors != [] && Shape(centroids[..], dim)
    requires Assigns(|vectors|, centroids.Length, assign)
    modifies centroids
    ensures Updated(vectors, assign, old(centroids[..]), centroids[..], dim)
  {
    var k := centroids.Length;
    ghost var before := centroids[..];
    var sums := new real[k, dim]((_, _) => 0.0);
    var counts := new nat[k](_ => 0);
    Accumulate(vectors, dim, assign, k, sums, counts);
    for c := 0 to k
      invariant Shape(centroids[..], dim)
      invariant forall j :: c <= j < k ==> centroids[j] == before[j]
      invariant forall j :: 0 <= j < c ==> UpdatedAt(vectors, assign, before, centroids[..], dim, j)
      invariant forall j, d :: 0 <= j < k && 0 <= d < dim ==> sums[j, d] == Sum(vectors, assign, j, d, |vectors|)
      invariant forall j :: 0 <= j < k ==> counts[j] == Count(assign, j, |vectors|)
    {
      ghost var now := centroids[..];
      var p: Vec;
      if counts[c] == 0 {
        var far := FindFarthest(vectors, dim, assign, centroids[..]);
        p := vectors[far];
        assert Mixed(before, now[c := p], c) == now;
      } else {
        p := MeanOf(sums, c, counts[c], dim);
        QuotientIsMean(vectors, assign, c, p, dim);
      }
      centroids[c] := p;
      assert centroids[..] == now[c := p];
      UpdateStays(vectors, assign, before, now, centroids[..], dim, c);
    }
  }

  /** Writing centroid `c` leaves the clusters in front of it as they were updated. */
  lemma UpdateStays(vectors: seq<Vec>, assign: seq<nat>, before: seq<Vec>, now: seq<Vec>, after: seq<Vec>, dim: nat,
                    c: nat)
    requires Shape(vectors, dim) && Shape(before, dim) && Shape(now, dim) && Shape(after, dim)
    requires c < |before| == |now| == |after| && Assigns(|vectors|, |before|, assign) && after == now[c := after[c]]
    requires forall j :: c <= j < |now| ==> now[j] == before[j]
    requires forall j :: 0 <= j < c ==> UpdatedAt(vectors, assign, before, now, dim, j)
    requires UpdatedAt(vectors, assign, before, after, dim, c)
    ensures forall j :: 0 <= j < c + 1 ==> UpdatedAt(vectors, assign, before, after, dim, j)
  {
    forall j | 0 <= j < c
      ensures UpdatedAt(vectors, assign, before, after, dim, j)
    {
      assert UpdatedAt(vectors, assign, before, now, dim, j);
      assert Mixed(before, after, j) == Mixed(before, now, j);
    }
  }

  /** How the loop may end: early, at a fixed point, or after `maxIter` iterations with one
      more centroid update; without iterations the seeding is returned. */
  ghost predicate LloydOutcome(vectors: seq<Vec>, dim: nat, maxIter: nat, start: seq<Vec>, centroids: seq<Vec>,
                               converged: bool, run: seq<Iteration>)
    requires Shape(vectors, dim)
  {
    && IsLloydRun(vectors, dim, run)
    && |centroids| == |start| && Shape(centroids, dim)
    && (if run == [] then centroids == start else run[0].centroids == start)
    && (if converged then
          |run| >= 2 && centroids == run[|run| - 1].centroids && FixedPoint(vectors, dim, run[|run| - 1])
        else
          && |run| == maxIter
          && (maxIter > 0 ==>
                Updated(vectors, run[maxIter - 1].assign, run[maxIter - 1].centroids, centroids, dim)))
  }

  /** `start` is the k-means++ seeding. Fails exactly on an empty problem. `converged`
      tells an early stop from running out of iterations. */
  method Lloyd(vectors: seq<Vec>, dim: nat, clusters: int, maxIter: nat, start: seq<Vec>)
    returns (centroids: seq<Vec>, ok: bool, converged: bool, ghost run: seq<Iteration>)
    requires Shape(vectors, dim) && Shape(start, dim)
    requires |start| == if clusters <= 0 then 0 else if clusters > |vectors| then |vectors| else clusters
    ensures ok <==> vectors != [] && dim > 0 && clusters > 0
    ensures IsLloydRun(vectors, dim, run)
    ensures ok ==> LloydOutcome(vectors, dim, maxIter, start, centroids, converged, run)
  {
    run := [];
    if vectors == [] || dim == 0 || clusters <= 0 {
      return [], false, false, [];
    }
    var k := |start|;
    var current := new Vec[k](i requires 0 <= i < k => start[i]);
    var assign := new int[|vectors|](_ => -1);
    assert current[..] == start;
    converged := false;
    var iter := 0;
    while iter < maxIter
      invariant iter <= maxIter && |run| == iter
      invariant Shape(current[..], dim)
      invariant IsLloydRun(vectors, dim, run)
      invariant run == [] ==> current[..] == start && forall i :: 0 <= i < |vectors| ==> assign[i] == -1
      invariant run != [] ==> run[0].centroids == start && assign[..] == run[iter - 1].assign
      invariant run != [] ==> Updated(vectors, run[iter - 1].assign, run[iter - 1].centroids, current[..], dim)
    {
      assert iter == 0 ==> assign[0] == -1;
      var changed := AssignAll(vectors, dim, current[..], assign);
      var a: seq<nat> := assign[..];
      ghost var next := run + [Iteration(a, current[..])];
      assert Assigned(vectors, dim, next[iter]);
      assert IsLloydRun(vectors, dim, next);
      if !changed {
        run := next;
        UnchangedIsFixed(vectors, dim, run);
        converged := true;
        break;
      }
      run := next;
      UpdateAll(vectors, dim, a, current);
      iter := iter + 1;
    }
    return current[..], true, converged, run;
  }
}
