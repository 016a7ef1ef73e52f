/** Reciprocal rank fusion of the two recall legs, and the rerank that scores and orders
    the fused candidates. */
module Fuse {
  import opened Wrappers
  import opened RecallTypes
  import opened Order
  import opened Filter

  const RRF_K: real := 60.0

  /** Contribution of a row at 0-based `rank` in one leg. */
  function Share(rank: nat): (r: real)
    ensures 0.0 < r
  {
    1.0 / (RRF_K + rank as real + 1.0)
  }

  const RRF_MAX: real := 2.0 / (RRF_K + 1.0)

  /** What a row has gathered so far: fused score, similarity, keyword rank. */
  datatype Acc = Acc(rrf: real, sim: Option<real>, bm25Rank: Option<nat>)

  /** A row reaches scoring only if the loaded row exists and the filter admits it. */
  predicate Usable(f: HardFilter, rows: Rows, id: int) {
    id in rows && Admits(f, rows[id])
  }

  function Entry(acc: map<int, Acc>, id: int): Acc {
    if id in acc then acc[id] else Acc(0.0, None, None)
  }

  datatype VecHit = VecHit(rowid: int, distance: real)

  function VecAcc(f: HardFilter, rows: Rows, hits: seq<VecHit>): (acc: map<int, Acc>) {
    if hits == [] then map[] else
      var n := |hits| - 1;
      var acc, h := VecAcc(f, rows, hits[..n]), hits[n];
      if !Usable(f, rows, h.rowid) then acc
      else
        var entry := Entry(acc, h.rowid);
        acc[h.rowid := entry.(rrf := entry.rrf + Share(n), sim := Some(1.0 - h.distance))]
  }

  function FtsAcc(f: HardFilter, rows: Rows, start: map<int, Acc>, ids: seq<int>): (acc: map<int, Acc>) {
    if ids == [] then start else
      var n := |ids| - 1;
      var acc, id := FtsAcc(f, rows, start, ids[..n]), ids[n];
      if !Usable(f, rows, id) then acc
      else acc[id := Entry(acc, id).(rrf := Entry(acc, id).rrf + Share(n), bm25Rank := Some(n))]
  }

  function FusedAcc(f: HardFilter, rows: Rows, vec: seq<VecHit>, fts: seq<int>): map<int, Acc> {
    FtsAcc(f, rows, VecAcc(f, rows, vec), fts)
  }

  /** The candidate for one accumulated row; without a canonical row there is none. */
  function FusedHit(rows: Rows, acc: map<int, Acc>): int -> Option<Hit> {
    (id: int) =>
      if id !in rows then None else
        var e := Entry(acc, id);
        Some(Hit(id, rows[id].publicId, rows[id].tier, rows[id].trust, 0.0, Unpacked, 0, e.rrf, e.sim, e.bm25Rank))
  }

  lemma {:induction false} VecAccUsable(f: HardFilter, rows: Rows, hits: seq<VecHit>)
    ensures forall id :: id in VecAcc(f, rows, hits) ==> Usable(f, rows, id)
  {
    if hits != [] {
      VecAccUsable(f, rows, hits[..|hits| - 1]);
    }
  }

  /** Nothing the filter rejects is ever scored. */
  lemma {:induction false} FtsAccUsable(f: HardFilter, rows: Rows, start: map<int, Acc>, ids: seq<int>)
    requires forall id :: id in start ==> Usable(f, rows, id)
    ensures forall id :: id in FtsAcc(f, rows, start, ids) ==> Usable(f, rows, id)
  {
    if ids != [] {
      FtsAccUsable(f, rows, start, ids[..|ids| - 1]);
    }
  }

  lemma FusedUsable(f: HardFilter, rows: Rows, vec: seq<VecHit>, fts: seq<int>)
    ensures forall id :: id in FusedAcc(f, rows, vec, fts) ==> id in rows && Admits(f, rows[id])
  {
    VecAccUsable(f, rows, vec);
    FtsAccUsable(f, rows, VecAcc(f, rows, vec), fts);
  }

  // ---- the fused score -----------------------------------------------------------------------

  function RankOf(ids: seq<int>, id: int): (r: Option<nat>) {
    if ids == [] then None else
      var n := |ids| - 1;
      var before := RankOf(ids[..n], id);
      if before.Some? then before else if ids[n] == id then Some(n) else None
  }

  ghost predicate Distinct(ids: seq<int>) {
    forall i, j :: 0 <= i < j < |ids| ==> ids[i] != ids[j]
  }

  lemma {:induction false} RankFinds(ids: seq<int>, id: int)
    ensures RankOf(ids, id).Some? ==> RankOf(ids, id).value < |ids| && ids[RankOf(ids, id).value] == id
    ensures RankOf(ids, id).None? ==> forall i :: 0 <= i < |ids| ==> ids[i] != id
  {
    if ids != [] {
      var n := |ids| - 1;
      RankFinds(ids[..n], id);
      assert forall i :: 0 <= i < n ==> ids[..n][i] == ids[i];
    }
  }

  function Points(rank: Option<nat>): (p: real)
    ensures p >= 0.0
  {
    if rank.None? then 0.0 else Share(rank.value)
  }

  function VecIds(hits: seq<VecHit>): (ids: seq<int>)
    ensures |ids| == |hits| && forall i :: 0 <= i < |hits| ==> ids[i] == hits[i].rowid
  {
    seq(|hits|, i requires 0 <= i < |hits| => hits[i].rowid)
  }

  lemma {:induction false} VecAccScore(f: HardFilter, rows: Rows, hits: seq<VecHit>, id: int)
    requires Distinct(VecIds(hits))
    ensures var acc, rank := VecAcc(f, rows, hits), RankOf(VecIds(hits), id);
            && (id in acc <==> Usable(f, rows, id) && rank.Some?)
            && (id in acc ==> acc[id].rrf == Points(rank) && acc[id].bm25Rank == None)
            && (id in acc && rank.Some? ==> rank.value < |hits| && acc[id].sim == Some(1.0 - hits[rank.value].distance))
  {
    if hits != [] {
      var n := |hits| - 1;
      assert VecIds(hits)[..n] == VecIds(hits[..n]);
      VecAccScore(f, rows, hits[..n], id);
      RankFinds(VecIds(hits[..n]), id);
    }
  }

  lemma {:induction false} FtsAccScore(f: HardFilter, rows: Rows, start: map<int, Acc>, ids: seq<int>, id: int)
    requires Distinct(ids)
    ensures var acc, rank := FtsAcc(f, rows, start, ids), RankOf(ids, id);
            && (id in acc <==> id in start || (Usable(f, rows, id) && rank.Some?))
            && (id in acc && Usable(f, rows, id) ==>
                  && acc[id].rrf == Entry(start, id).rrf + Points(rank) && acc[id].sim == Entry(start, id).sim
                  && acc[id].bm25Rank == if rank.Some? then rank else Entry(start, id).bm25Rank)
  {
    if ids != [] {
      var n := |ids| - 1;
      FtsAccScore(f, rows, start, ids[..n], id);
      RankFinds(ids[..n], id);
    }
  }

  lemma ShareBound(rank: nat)
    ensures Share(rank) <= 1.0 / 61.0
    ensures Share(rank) == 1.0 / 61.0 <==> rank == 0
  {
    var d := RRF_K + rank as real + 1.0;
    assert d * Share(rank) == 1.0;
    if rank > 0 {
      assert d >= 62.0;
      DivisionFalls(d);
    }
  }

  lemma DivisionFalls(d: real)
    requires d >= 62.0
    ensures 1.0 / d < 1.0 / 61.0
  {
    var x := 1.0 / d;
    assert d * x == 1.0;
    assert x > 0.0 ==> d * x >= 62.0 * x by {
      assert x > 0.0 ==> (d - 62.0) * x >= 0.0;
    }
  }

  /** With distinct rowids in each leg a row's fused score is the sum of its two shares,
      so it never exceeds 2/61, and reaches it exactly when both legs rank it first; similarity and
      keyword rank are those of the leg that ranks it. */
  lemma FusedScore(f: HardFilter, rows: Rows, vec: seq<VecHit>, fts: seq<int>, id: int)
    requires Distinct(VecIds(vec)) && Distinct(fts)
    ensures var acc := FusedAcc(f, rows, vec, fts);
            var v, k := RankOf(VecIds(vec), id), RankOf(fts, id);
            && (id in acc <==> id in rows && Admits(f, rows[id]) && (v.Some? || k.Some?))
            && (id in acc ==> acc[id].rrf == Points(v) + Points(k) && 0.0 < acc[id].rrf <= RRF_MAX)
            && (id in acc ==> (acc[id].rrf == RRF_MAX <==> v == Some(0) && k == Some(0)))
            && (id in acc ==> acc[id].bm25Rank == k)
            && (id in acc ==> if v.None? then acc[id].sim == None
                              else v.value < |vec| && acc[id].sim == Some(1.0 - vec[v.value].distance))
  {
    hide VecAcc, FtsAcc, RankOf, Share, Admits;
    RankFinds(VecIds(vec), id);
    VecAccScore(f, rows, vec, id);
    VecAccUsable(f, rows, vec);
    FtsAccScore(f, rows, VecAcc(f, rows, vec), fts, id);
    var v, k := RankOf(VecIds(vec), id), RankOf(fts, id);
    if v.Some? {
      ShareBound(v.value);
    }
    if k.Some? {
      ShareBound(k.value);
    }
  }

  lemma {:induction false} VecAccHolds(f: HardFilter, rows: Rows, hits: seq<VecHit>, id: int)
    ensures id in VecAcc(f, rows, hits) <==> Usable(f, rows, id) && id in VecIds(hits)
  {
    if hits != [] {
      var n := |hits| - 1;
      assert VecIds(hits) == VecIds(hits[..n]) + [hits[n].rowid];
      VecAccHolds(f, rows, hits[..n], id);
    }
  }

  lemma {:induction false} FtsAccHolds(f: HardFilter, rows: Rows, start: map<int, Acc>, ids: seq<int>, id: int)
    ensures id in FtsAcc(f, rows, start, ids) <==> id in start || (Usable(f, rows, id) && id in ids)
  {
    if ids != [] {
      var n := |ids| - 1;
      assert ids == ids[..n] + [ids[n]];
      FtsAccHolds(f, rows, start, ids[..n], id);
    }
  }

  /** Every usable row of either leg is scored, and nothing else. */
  lemma FusedHolds(f: HardFilter, rows: Rows, vec: seq<VecHit>, fts: seq<int>, id: int)
    ensures id in FusedAcc(f, rows, vec, fts) <==> Usable(f, rows, id) && (id in VecIds(vec) || id in fts)
  {
    VecAccHolds(f, rows, vec, id);
    FtsAccHolds(f, rows, VecAcc(f, rows, vec), fts, id);
  }

  // ---- order of the fused list -----------------------------------------------------------------

  /** The ids of a hash map in whatever order it iterates. */
  ghost predicate Enumerates(ids: seq<int>, keys: set<int>) {
    Distinct(ids) && forall id :: id in keys <==> id in multiset(ids)
  }

  function FusedOrder(): Le<Hit> {
    (a: Hit, b: Hit) => if a.rrf != b.rrf then a.rrf > b.rrf else LexLe(a.publicId, b.publicId)
  }

  function ScoreOrder(): Le<Hit> {
    (a: Hit, b: Hit) => if a.score != b.score then a.score > b.score else LexLe(a.publicId, b.publicId)
  }

  lemma OrdersAreOrders()
    ensures TotalPreorder(FusedOrder()) && TotalPreorder(ScoreOrder())
  {
    forall a: Hit, b: Hit {
      LexTotal(a.publicId, b.publicId);
    }
    forall a: Hit, b: Hit, c: Hit | LexLe(a.publicId, b.publicId) && LexLe(b.publicId, c.publicId) {
      LexTransitive(a.publicId, b.publicId, c.publicId);
    }
  }

  lemma OrdersSeparate(hits: seq<Hit>)
    requires DistinctHits(hits)
    ensures Separates(multiset(hits), FusedOrder()) && Separates(multiset(hits), ScoreOrder())
  {
    forall x: Hit, y: Hit | x in multiset(hits) && y in multiset(hits) {
      LexTotal(x.publicId, y.publicId);
    }
  }

  function Fused(rows: Rows, acc: map<int, Acc>, ids: seq<int>): seq<Hit> {
    Sort(FilterMap(FusedHit(rows, acc), ids), FusedOrder())
  }

  lemma {:induction false} DistinctCount(ids: seq<int>, x: int)
    requires Distinct(ids)
    ensures multiset(ids)[x] == if x in multiset(ids) then 1 else 0
  {
    if ids != [] {
      var n := |ids| - 1;
      assert ids == ids[..n] + [ids[n]];
      DistinctCount(ids[..n], x);
      assert ids[n] !in ids[..n];
      assert ids[n] !in multiset(ids[..n]);
    }
  }

  lemma EnumerationsPermute(a: seq<int>, b: seq<int>, keys: set<int>)
    requires Enumerates(a, keys) && Enumerates(b, keys)
    ensures multiset(a) == multiset(b)
  {
    forall x: int
      ensures multiset(a)[x] == multiset(b)[x]
    {
      DistinctCount(a, x);
      DistinctCount(b, x);
      assert x in keys <==> x in multiset(a);
      assert x in keys <==> x in multiset(b);
    }
  }

  ghost predicate UniqueRows(rows: Rows) {
    forall a, b :: a in rows && b in rows && rows[a].publicId == rows[b].publicId ==> a == b
  }

  lemma HitsDistinct(rows: Rows, acc: map<int, Acc>, ids: seq<int>)
    requires UniqueRows(rows)
    ensures DistinctHits(FilterMap(FusedHit(rows, acc), ids))
  {
    var hits := FilterMap(FusedHit(rows, acc), ids);
    hide FilterMap;
    forall x: Hit, y: Hit | x in multiset(hits) && y in multiset(hits) && x.publicId == y.publicId
      ensures x == y
    {
      var a := FilterMapAt(FusedHit(rows, acc), ids, x);
      var b := FilterMapAt(FusedHit(rows, acc), ids, y);
      assert a in rows && b in rows && a == b;
    }
  }

  /** The fused list does not depend on the order the hash map iterates in. */
  lemma FuseForgetsIteration(rows: Rows, acc: map<int, Acc>, a: seq<int>, b: seq<int>)
    requires Enumerates(a, acc.Keys) && Enumerates(b, acc.Keys) && UniqueRows(rows)
    ensures Fused(rows, acc, a) == Fused(rows, acc, b)
  {
    var g := FusedHit(rows, acc);
    hide FilterMap, Sort, FusedHit;
    EnumerationsPermute(a, b, acc.Keys);
    FilterMapForgetsOrder(g, a, b);
    HitsDistinct(rows, acc, a);
    OrdersAreOrders();
    OrdersSeparate(FilterMap(g, a));
    SortForgetsOrder(FilterMap(g, a), FilterMap(g, b), FusedOrder());
  }

  // ---- rerank -------------------------------------------------------------------------------------

  datatype Weights = Weights(sim: real, importance: real, decay: real)

  function Clamp01(x: real): (c: real)
    ensures 0.0 <= c <= 1.0 && (0.0 <= x <= 1.0 ==> c == x)
  {
    if x < 0.0 then 0.0 else if x > 1.0 then 1.0 else x
  }

  function ImportanceEff(row: CanonicalRow): real {
    if row.status == Pending then row.importance * row.confidence else row.importance
  }

  /** `decay` stands for the half-life curve at the filter's instant. */
  function DecayOf(row: CanonicalRow, decay: CanonicalRow -> real): real {
    if row.pinned then 1.0 else decay(row)
  }

  function Score(w: Weights, row: CanonicalRow, rrf: real, decay: CanonicalRow -> real): real {
    w.sim * Clamp01(rrf / RRF_MAX) + w.importance * ImportanceEff(row) + w.decay * DecayOf(row, decay)
  }

  /** Hits without a row are dropped, not scored blind. */
  function Scored(w: Weights, decay: CanonicalRow -> real, rows: Rows): Hit -> Option<Hit> {
    (h: Hit) => if h.rowid in rows then Some(h.(score := Score(w, rows[h.rowid], h.rrf, decay))) else None
  }

  function Rerank(w: Weights, decay: CanonicalRow -> real, hits: seq<Hit>, rows: Rows): seq<Hit> {
    Sort(FilterMap(Scored(w, decay, rows), hits), ScoreOrder())
  }

  /** With distinct rowids per leg the normalising clamp never acts, and the normalised
      term is 1 exactly for a row both legs rank first. */
  lemma ClampIsInactive(f: HardFilter, rows: Rows, vec: seq<VecHit>, fts: seq<int>, id: int)
    requires Distinct(VecIds(vec)) && Distinct(fts) && id in FusedAcc(f, rows, vec, fts)
    ensures var rrf := FusedAcc(f, rows, vec, fts)[id].rrf;
            && Clamp01(rrf / RRF_MAX) == rrf / RRF_MAX
            && (Clamp01(rrf / RRF_MAX) == 1.0 <==> RankOf(VecIds(vec), id) == Some(0) && RankOf(fts, id) == Some(0))
  {
    FusedScore(f, rows, vec, fts, id);
    Normalises(FusedAcc(f, rows, vec, fts)[id].rrf);
  }

  lemma Normalises(rrf: real)
    requires 0.0 < rrf <= RRF_MAX
    ensures 0.0 <= rrf / RRF_MAX <= 1.0 && (rrf / RRF_MAX == 1.0 <==> rrf == RRF_MAX)
  {
    assert rrf / RRF_MAX == rrf * 61.0 / 2.0;
  }

  /** Reranking keeps public ids distinct. */
  lemma ScoredDistinct(w: Weights, decay: CanonicalRow -> real, hits: seq<Hit>, rows: Rows)
    requires DistinctHits(hits)
    ensures DistinctHits(FilterMap(Scored(w, decay, rows), hits))
  {
    var r := FilterMap(Scored(w, decay, rows), hits);
    hide FilterMap, Score;
    forall x: Hit, y: Hit | x in multiset(r) && y in multiset(r) && x.publicId == y.publicId
      ensures x == y
    {
      var a := FilterMapAt(Scored(w, decay, rows), hits, x);
      var b := FilterMapAt(Scored(w, decay, rows), hits, y);
      assert a.publicId == b.publicId;
    }
  }

  /** Reranking forgets the order its input came in. */
  lemma RerankForgetsOrder(w: Weights, decay: CanonicalRow -> real, a: seq<Hit>, b: seq<Hit>, rows: Rows)
    requires multiset(a) == multiset(b) && DistinctHits(a)
    ensures Rerank(w, decay, a, rows) == Rerank(w, decay, b, rows)
  {
    var g := Scored(w, decay, rows);
    hide FilterMap, Sort, Scored;
    FilterMapForgetsOrder(g, a, b);
    ScoredDistinct(w, decay, a, rows);
    OrdersAreOrders();
    OrdersSeparate(FilterMap(g, a));
    SortForgetsOrder(FilterMap(g, a), FilterMap(g, b), ScoreOrder());
  }

  /** The first occurrence in either leg decides: each place down a leg is worth strictly less, and
      the best place is worth 1/61. */
  lemma SharesFall(rank: nat, later: nat)
    ensures Share(0) == 1.0 / 61.0
    ensures rank < later ==> Share(later) < Share(rank)
  {
    var c, d := RRF_K + rank as real + 1.0, RRF_K + later as real + 1.0;
    var x, y := Share(rank), Share(later);
    assert c * x == 1.0 && d * y == 1.0;
    if rank < later {
      assert c * x == d * y && (d - c) * y > 0.0;
      assert c * (x - y) == (d - c) * y;
      PositiveFactor(c, x - y);
    }
  }

  lemma PositiveFactor(c: real, e: real)
    requires c > 0.0 && c * e > 0.0
    ensures e > 0.0
  {
  }

  // ---- what reranking guarantees --------------------------------------------------------------------

  function Normalised(rrf: real): real {
    if rrf <= 0.0 then 0.0 else if rrf >= 2.0 / 61.0 then 1.0 else rrf * 61.0 / 2.0
  }

  /** The score of a row in plain terms: the fused score relative to the best possible 2/61, the
      importance, discounted by the confidence of a pending row, and the decay, which spares
      pinned rows. */
  ghost predicate HasScore(score: real, w: Weights, row: CanonicalRow, rrf: real, decay: CanonicalRow -> real) {
    var importance := row.importance * (if row.status == Pending then row.confidence else 1.0);
    var recency := if row.pinned then 1.0 else decay(row);
    score == w.sim * Normalised(rrf) + w.importance * importance + w.decay * recency
  }

  lemma ScoreIsPlain(w: Weights, row: CanonicalRow, rrf: real, decay: CanonicalRow -> real)
    ensures HasScore(Score(w, row, rrf, decay), w, row, rrf, decay)
  {
    assert rrf / RRF_MAX == rrf * 61.0 / 2.0;
  }

  /** Best first: scores fall, and equal scores come in order of public id. */
  ghost predicate BestFirst(hits: seq<Hit>) {
    forall i, j :: 0 <= i < j < |hits| ==>
      hits[i].score > hits[j].score || (hits[i].score == hits[j].score && LexLe(hits[i].publicId, hits[j].publicId))
  }

  lemma RerankIsBestFirst(w: Weights, decay: CanonicalRow -> real, hits: seq<Hit>, rows: Rows)
    ensures BestFirst(Rerank(w, decay, hits, rows))
  {
    OrdersAreOrders();
    SortSorts(FilterMap(Scored(w, decay, rows), hits), ScoreOrder());
    var r, le := Rerank(w, decay, hits, rows), ScoreOrder();
    assert forall i, j :: 0 <= i < j < |r| ==> le(r[i], r[j]);
  }

  /** Every hit with a row is ranked, under its plain score and otherwise unchanged. */
  lemma RerankHolds(w: Weights, decay: CanonicalRow -> real, hits: seq<Hit>, rows: Rows, h: Hit) returns (r: Hit)
    requires h in multiset(hits) && h.rowid in rows
    ensures r in multiset(Rerank(w, decay, hits, rows)) && r == h.(score := r.score)
    ensures HasScore(r.score, w, rows[h.rowid], h.rrf, decay)
  {
    hide FilterMap, Sort, Score;
    var g := Scored(w, decay, rows);
    FilterMapHolds(g, hits, h);
    OrdersAreOrders();
    SortSorts(FilterMap(g, hits), ScoreOrder());
    ScoreIsPlain(w, rows[h.rowid], h.rrf, decay);
    r := g(h).value;
  }

  /** Nothing else is ranked. */
  lemma RerankFrom(w: Weights, decay: CanonicalRow -> real, hits: seq<Hit>, rows: Rows, r: Hit) returns (h: Hit)
    requires r in multiset(Rerank(w, decay, hits, rows))
    ensures h in multiset(hits) && h.rowid in rows && r == h.(score := r.score)
    ensures HasScore(r.score, w, rows[h.rowid], h.rrf, decay)
  {
    hide FilterMap, Sort, Score;
    var g := Scored(w, decay, rows);
    OrdersAreOrders();
    SortSorts(FilterMap(g, hits), ScoreOrder());
    h := FilterMapAt(g, hits, r);
    ScoreIsPlain(w, rows[h.rowid], h.rrf, decay);
  }

  /** With weights that are not negative, a row that is at least as good in fused score, importance
      and decay scores at least as much. */
  lemma ScoreIsMonotone(w: Weights, a: CanonicalRow, b: CanonicalRow, rrfA: real, rrfB: real,
                        decay: CanonicalRow -> real)
    requires w.sim >= 0.0 && w.importance >= 0.0 && w.decay >= 0.0
    requires rrfA <= rrfB && ImportanceEff(a) <= ImportanceEff(b) && DecayOf(a, decay) <= DecayOf(b, decay)
    ensures Score(w, a, rrfA, decay) <= Score(w, b, rrfB, decay)
  {
    hide Clamp01, ImportanceEff, DecayOf;
    ClampMonotone(rrfA, rrfB);
    WeightedMonotone(w, Clamp01(rrfA / RRF_MAX), Clamp01(rrfB / RRF_MAX), ImportanceEff(a), ImportanceEff(b),
                     DecayOf(a, decay), DecayOf(b, decay));
  }

  lemma ClampMonotone(rrfA: real, rrfB: real)
    requires rrfA <= rrfB
    ensures Clamp01(rrfA / RRF_MAX) <= Clamp01(rrfB / RRF_MAX)
  {
    assert rrfA / RRF_MAX == rrfA * 61.0 / 2.0 && rrfB / RRF_MAX == rrfB * 61.0 / 2.0;
  }

  lemma WeightedMonotone(w: Weights, s: real, s': real, i: real, i': real, d: real, d': real)
    requires w.sim >= 0.0 && w.importance >= 0.0 && w.decay >= 0.0 && s <= s' && i <= i' && d <= d'
    ensures w.sim * s + w.importance * i + w.decay * d <= w.sim * s' + w.importance * i' + w.decay * d'
  {
    TimesMonotone(w.sim, s, s');
    TimesMonotone(w.importance, i, i');
    TimesMonotone(w.decay, d, d');
  }

  lemma TimesMonotone(w: real, x: real, y: real)
    requires w >= 0.0 && x <= y
    ensures w * x <= w * y
  {
  }

  /** The fused list: best fused score first, equal ones in order of public id. */
  lemma FusedIsBestFirst(rows: Rows, acc: map<int, Acc>, ids: seq<int>)
    ensures var r := Fused(rows, acc, ids);
            forall i, j :: 0 <= i < j < |r| ==>
              r[i].rrf > r[j].rrf || (r[i].rrf == r[j].rrf && LexLe(r[i].publicId, r[j].publicId))
  {
    OrdersAreOrders();
    SortSorts(FilterMap(FusedHit(rows, acc), ids), FusedOrder());
    var r, le := Fused(rows, acc, ids), FusedOrder();
    assert forall i, j :: 0 <= i < j < |r| ==> le(r[i], r[j]);
  }

  /** A hit of the fused list for row `id`, with the labels of its row and what the legs gave it. */
  ghost predicate FusedAs(h: Hit, id: int, row: CanonicalRow, e: Acc) {
    && h.rowid == id && h.publicId == row.publicId && h.tier == row.tier && h.trust == row.trust
    && h.placement == Unpacked && h.tokens == 0 && h.rrf == e.rrf && h.sim == e.sim && h.bm25Rank == e.bm25Rank
  }

  /** Every accumulated row with a canonical row becomes a hit. */
  lemma FusedListHolds(rows: Rows, acc: map<int, Acc>, ids: seq<int>, id: int) returns (h: Hit)
    requires Enumerates(ids, acc.Keys) && id in acc && id in rows
    ensures h in multiset(Fused(rows, acc, ids)) && FusedAs(h, id, rows[id], acc[id])
  {
    hide FilterMap, Sort;
    var g := FusedHit(rows, acc);
    assert id in acc.Keys;
    FilterMapHolds(g, ids, id);
    OrdersAreOrders();
    SortSorts(FilterMap(g, ids), FusedOrder());
    h := g(id).value;
  }

  // ---- the loops ------------------------------------------------------------------------------------

  /** The keys of a map in whatever order it iterates. */
  method Enumerate(keys: set<int>) returns (ids: seq<int>)
    ensures Enumerates(ids, keys)
  {
    ids := [];
    var todo := keys;
    while todo != {}
      invariant todo <= keys && Enumerates(ids, keys - todo)
      decreases |todo|
    {
      var pick := AnyOf(todo);
      assert pick.value !in multiset(ids);
      assert forall i :: 0 <= i < |ids| ==> ids[i] in multiset(ids);
      ids := ids + [pick.value];
      todo := todo - {pick.value};
    }
    assert keys - {} == keys;
  }

  method AccumulateVec(f: HardFilter, rows: Rows, vec: seq<VecHit>) returns (acc: map<int, Acc>)
    ensures acc == VecAcc(f, rows, vec)
  {
    acc := map[];
    for rank := 0 to |vec|
      invariant acc == VecAcc(f, rows, vec[..rank])
    {
      assert vec[..rank + 1][..rank] == vec[..rank];
      var id := vec[rank].rowid;
      if id in rows && Admits(f, rows[id]) {
        var e := Entry(acc, id);
        acc := acc[id := e.(rrf := e.rrf + Share(rank), sim := Some(1.0 - vec[rank].distance))];
      }
    }
    assert vec[..|vec|] == vec;
  }

  method AccumulateFts(f: HardFilter, rows: Rows, start: map<int, Acc>, fts: seq<int>) returns (acc: map<int, Acc>)
    ensures acc == FtsAcc(f, rows, start, fts)
  {
    acc := start;
    for rank := 0 to |fts|
      invariant acc == FtsAcc(f, rows, start, fts[..rank])
    {
      assert fts[..rank + 1][..rank] == fts[..rank];
      var id := fts[rank];
      if id in rows && Admits(f, rows[id]) {
        var e := Entry(acc, id);
        acc := acc[id := e.(rrf := e.rrf + Share(rank), bm25Rank := Some(rank))];
      }
    }
    assert fts[..|fts|] == fts;
  }

  method CollectHits(rows: Rows, acc: map<int, Acc>, ids: seq<int>) returns (hits: seq<Hit>)
    ensures hits == Fused(rows, acc, ids)
  {
    var found: seq<Hit> := [];
    for i := 0 to |ids|
      invariant found == FilterMap(FusedHit(rows, acc), ids[..i])
    {
      assert ids[..i + 1][..i] == ids[..i];
      var h := FusedHit(rows, acc)(ids[i]);
      if h.Some? {
        found := found + [h.value];
      }
    }
    assert ids[..|ids|] == ids;
    hits := Sort(found, FusedOrder());
  }

  ghost predicate FusedIn(f: HardFilter, rows: Rows, vec: seq<VecHit>, fts: seq<int>, ids: seq<int>, hits: seq<Hit>) {
    Enumerates(ids, FusedAcc(f, rows, vec, fts).Keys) && hits == Fused(rows, FusedAcc(f, rows, vec, fts), ids)
  }

  /** Fuse both legs: accumulate, collect in map order, sort. */
  method FuseLegs(f: HardFilter, vec: seq<VecHit>, rows: Rows, fts: seq<int>) returns (hits: seq<Hit>)
    ensures exists ids :: FusedIn(f, rows, vec, fts, ids, hits)
  {
    var acc := AccumulateVec(f, rows, vec);
    acc := AccumulateFts(f, rows, acc, fts);
    var ids := Enumerate(acc.Keys);
    hits := CollectHits(rows, acc, ids);
    assert FusedIn(f, rows, vec, fts, ids, hits);
  }

  /** Score every hit that has a row, then sort. */
  method RerankHits(w: Weights, decay: CanonicalRow -> real, hits: seq<Hit>, rows: Rows) returns (r: seq<Hit>)
    ensures r == Rerank(w, decay, hits, rows)
  {
    var scored: seq<Hit> := [];
    for i := 0 to |hits|
      invariant scored == FilterMap(Scored(w, decay, rows), hits[..i])
    {
      assert hits[..i + 1][..i] == hits[..i];
      if hits[i].rowid in rows {
        var row := rows[hits[i].rowid];
        scored := scored + [hits[i].(score := Score(w, row, hits[i].rrf, decay))];
      }
    }
    assert hits[..|hits|] == hits;
    r := Sort(scored, ScoreOrder());
  }
}
