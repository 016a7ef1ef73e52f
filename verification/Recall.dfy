/** One recall: two legs supply candidates, three gates decide membership, and the ranked
    survivors are cut and packed. */
module Recall {
  import opened Wrappers
  import opened RecallTypes
  import opened Order
  import opened Filter
  import Fuse
  import Pack

  /** What a query asks of ranking, cutting and packing. */
  datatype Query = Query(k: nat, minScore: real, weights: Fuse.Weights, decay: CanonicalRow -> real,
                         split: Pack.Split, budget: nat, counter: string -> nat)

  /** Whatever rowids, distances and stale metadata the legs supplied. */
  datatype Legs = Legs(vec: seq<Fuse.VecHit>, fts: seq<int>)

  function LegIds(legs: Legs): (ids: set<int>) {
    (set i | 0 <= i < |legs.vec| :: legs.vec[i].rowid) + (set i | 0 <= i < |legs.fts| :: legs.fts[i])
  }

  function PublicIds(hits: seq<Hit>): (ids: set<string>) {
    set i | 0 <= i < |hits| :: hits[i].publicId
  }

  function KeepIn(ids: set<string>): Hit -> Option<Hit> {
    (h: Hit) => if h.publicId in ids then Some(h) else None
  }

  function KeepScoring(minScore: real): Hit -> Option<Hit> {
    (h: Hit) => if h.score >= minScore then Some(h) else None
  }

  function Truncate(hits: seq<Hit>, k: nat): (r: seq<Hit>)
    ensures |r| <= k && |r| <= |hits|
  {
    if |hits| <= k then hits else hits[..k]
  }

  /** The third gate: only public ids the filter admits when it looks again. */
  function Gated(f: HardFilter, later: Table, fused: seq<Hit>): seq<Hit> {
    FilterMap(KeepIn(Surviving(f, later, PublicIds(fused))), fused)
  }

  /** The gated candidates, ranked. */
  function Ranked(f: HardFilter, now: Table, later: Table, legs: Legs, q: Query, ids: seq<int>): (ranked: seq<Hit>) {
    var rows := AdmittedRows(f, now, LegIds(legs));
    var fused := Fuse.Fused(rows, Fuse.FusedAcc(f, rows, legs.vec, legs.fts), ids);
    Fuse.Rerank(q.weights, q.decay, Gated(f, later, fused), rows)
  }

  /** Ranked, cut to `k`, then to the score floor. */
  function Kept(q: Query, admitted: seq<Hit>, rows: Rows): seq<Hit> {
    FilterMap(KeepScoring(q.minScore), Truncate(Fuse.Rerank(q.weights, q.decay, admitted, rows), q.k))
  }

  /** The report, when the fusion map iterates in the order `ids`. The table may change
      between the second gate (`now`) and the third (`later`). */
  function Report(f: HardFilter, now: Table, later: Table, legs: Legs, q: Query, ids: seq<int>): Pack.Packed {
    var rows := AdmittedRows(f, now, LegIds(legs));
    var fused := Fuse.Fused(rows, Fuse.FusedAcc(f, rows, legs.vec, legs.fts), ids);
    Pack.PackAll(q.split, q.budget, Kept(q, Gated(f, later, fused), rows), rows, q.counter)
  }

  ghost predicate IterationOrder(f: HardFilter, now: Table, legs: Legs, ids: seq<int>) {
    Fuse.Enumerates(ids, Fuse.FusedAcc(f, AdmittedRows(f, now, LegIds(legs)), legs.vec, legs.fts).Keys)
  }

  // ---- where a kept hit comes from ---------------------------------------------------------------

  lemma {:induction false} FilterMapShorter<T, U>(g: T -> Option<U>, s: seq<T>)
    ensures |FilterMap(g, s)| <= |s|
  {
    if s != [] {
      FilterMapShorter(g, s[..|s| - 1]);
    }
  }

  lemma TruncateTakes(hits: seq<Hit>, k: nat, h: Hit)
    requires h in multiset(Truncate(hits, k))
    ensures h in multiset(hits)
  {
    var r := Truncate(hits, k);
    var i :| 0 <= i < |r| && r[i] == h;
    assert hits[i] == h;
  }

  /** A kept hit scores at least the floor and is a gated candidate with its score set. */
  lemma KeptComesFrom(q: Query, admitted: seq<Hit>, rows: Rows, h: Hit) returns (c: Hit)
    requires h in multiset(Kept(q, admitted, rows))
    ensures h.score >= q.minScore
    ensures c in multiset(admitted) && c.rowid in rows && h == c.(score := h.score)
  {
    hide FilterMap, Sort;
    var ranked := Fuse.Rerank(q.weights, q.decay, admitted, rows);
    var kept := FilterMapAt(KeepScoring(q.minScore), Truncate(ranked, q.k), h);
    assert kept == h;
    TruncateTakes(ranked, q.k, h);
    var g := Fuse.Scored(q.weights, q.decay, rows);
    Fuse.OrdersAreOrders();
    SortSorts(FilterMap(g, admitted), Fuse.ScoreOrder());
    c := FilterMapAt(g, admitted, h);
  }

  lemma GatedComesFrom(f: HardFilter, later: Table, rows: Rows, acc: map<int, Fuse.Acc>, ids: seq<int>, c: Hit)
    requires c in multiset(Gated(f, later, Fuse.Fused(rows, acc, ids)))
    ensures c.rowid in rows && c.publicId == rows[c.rowid].publicId
    ensures c.tier == rows[c.rowid].tier && c.trust == rows[c.rowid].trust
    ensures c.placement == Unpacked && c.tokens == 0
    ensures exists id :: id in later && later[id].publicId == c.publicId && Predicate(f, later, id)
  {
    hide FilterMap, Sort;
    var fused := Fuse.Fused(rows, acc, ids);
    var x := FilterMapAt(KeepIn(Surviving(f, later, PublicIds(fused))), fused, c);
    assert x == c && c.publicId in Surviving(f, later, PublicIds(fused));
    var g := Fuse.FusedHit(rows, acc);
    Fuse.OrdersAreOrders();
    SortSorts(FilterMap(g, ids), Fuse.FusedOrder());
    var id := FilterMapAt(g, ids, c);
  }

  // ---- the guarantees ----------------------------------------------------------------------------

  /** Zero leak: whatever the legs supply, every hit of the report is a row the predicate
      and the mirror admit, labelled with that row's tier and trust, was admitted again after
      fusion, and scores at least the floor; there are at most `k`. */
  lemma NothingLeaks(f: HardFilter, now: Table, later: Table, legs: Legs, q: Query, ids: seq<int>, i: nat)
    requires i < |Report(f, now, later, legs, q, ids).hits|
    ensures |Report(f, now, later, legs, q, ids).hits| <= q.k
    ensures var h := Report(f, now, later, legs, q, ids).hits[i];
            && h.rowid in now && Predicate(f, now, h.rowid) && Admits(f, Row(h.rowid, now[h.rowid], None))
            && h.publicId == now[h.rowid].publicId && h.tier == now[h.rowid].tier && h.trust == now[h.rowid].trust
            && (exists id :: id in later && later[id].publicId == h.publicId && Predicate(f, later, id))
            && h.score >= q.minScore
  {
    hide Pack.PackAll, Kept, Gated, FilterMap;
    var rows := AdmittedRows(f, now, LegIds(legs));
    var acc := Fuse.FusedAcc(f, rows, legs.vec, legs.fts);
    var admitted := Gated(f, later, Fuse.Fused(rows, acc, ids));
    var kept := Kept(q, admitted, rows);
    var h := Pack.PackKeeps(q.split, q.budget, kept, rows, q.counter, i);
    var c := KeptComesFrom(q, admitted, rows, h);
    GatedComesFrom(f, later, rows, acc, ids, c);
    LoadedRowsAreAdmitted(f, now, LegIds(legs), c.rowid);
    KeptIsShort(q, admitted, rows);
  }

  /** What a caller asked for is what comes back: under the strict policy nothing untrusted, and
      episodic or pending rows only on request; never another agent's row, an expired one, or
      one that has been superseded. */
  lemma QueryIsHonoured(agent: string, includeEpisodic: bool, includePending: bool, policy: TrustPolicy, clock: int,
                        now: Table, later: Table, legs: Legs, q: Query, ids: seq<int>, i: nat)
    requires i < |Report(FromQuery(agent, includeEpisodic, includePending, policy, clock), now, later, legs, q,
               ids).hits|
    ensures var h := Report(FromQuery(agent, includeEpisodic, includePending, policy, clock), now, later, legs, q,
              ids).hits[i];
            && h.rowid in now && now[h.rowid].agent == agent
            && (policy == Strict ==> h.trust != Untrusted)
            && (!includeEpisodic ==> h.tier != Episodic)
            && (now[h.rowid].status == Active || (includePending && now[h.rowid].status == Pending))
            && (now[h.rowid].expiresAt.Some? ==> now[h.rowid].expiresAt.value > clock)
            && forall s :: s in now ==> now[s].supersedes != Some(h.rowid)
  {
    hide Report;
    NothingLeaks(FromQuery(agent, includeEpisodic, includePending, policy, clock), now, later, legs, q, ids, i);
    var h := Report(FromQuery(agent, includeEpisodic, includePending, policy, clock), now, later, legs, q, ids).hits[i];
    assert forall s :: s in now ==> !Supersedes(now, s, h.rowid);
  }

  // ---- nothing is missed, nothing twice --------------------------------------------------------------

  lemma PermutedOnce(s: seq<Hit>, t: seq<Hit>)
    requires OncePerRow(s) && multiset(s) == multiset(t)
    ensures OncePerRow(t)
  {
    forall i, j | 0 <= i < j < |t|
      ensures t[i].rowid != t[j].rowid
    {
      assert t[i] in multiset(s) && t[j] in multiset(s);
      if t[i] == t[j] {
        BagPositions(t, s, i, j);
      }
    }
  }

  lemma {:induction false} FilteredOnce(g: Hit -> Option<Hit>, s: seq<Hit>)
    requires OncePerRow(s) && forall h :: g(h).Some? ==> g(h).value.rowid == h.rowid
    ensures OncePerRow(FilterMap(g, s))
    ensures forall i :: 0 <= i < |FilterMap(g, s)| ==>
              exists j :: 0 <= j < |s| && s[j].rowid == FilterMap(g, s)[i].rowid
  {
    if s != [] {
      var n := |s| - 1;
      FilteredOnce(g, s[..n]);
      var front := FilterMap(g, s[..n]);
      forall i | 0 <= i < |front|
        ensures front[i].rowid != s[n].rowid && exists j :: 0 <= j < |s| && s[j].rowid == front[i].rowid
      {
        var j :| 0 <= j < n && s[..n][j].rowid == front[i].rowid;
        assert s[j].rowid == front[i].rowid;
      }
    }
  }

  lemma {:induction false} FusedOnce(rows: Rows, acc: map<int, Fuse.Acc>, ids: seq<int>)
    requires Fuse.Distinct(ids)
    ensures OncePerRow(FilterMap(Fuse.FusedHit(rows, acc), ids))
    ensures forall i :: 0 <= i < |FilterMap(Fuse.FusedHit(rows, acc), ids)| ==>
              FilterMap(Fuse.FusedHit(rows, acc), ids)[i].rowid in ids
  {
    if ids != [] {
      var n := |ids| - 1;
      FusedOnce(rows, acc, ids[..n]);
      assert ids == ids[..n] + [ids[n]];
      assert ids[n] !in ids[..n];
    }
  }

  /** The ranking holds each row at most once. */
  lemma RankedOnce(f: HardFilter, now: Table, later: Table, legs: Legs, q: Query, ids: seq<int>)
    requires Fuse.Distinct(ids)
    ensures OncePerRow(Ranked(f, now, later, legs, q, ids))
  {
    hide FilterMap, Sort, Fuse.FusedHit, Fuse.Score;
    var rows := AdmittedRows(f, now, LegIds(legs));
    var acc := Fuse.FusedAcc(f, rows, legs.vec, legs.fts);
    FusedOnce(rows, acc, ids);
    Fuse.OrdersAreOrders();
    var found := FilterMap(Fuse.FusedHit(rows, acc), ids);
    SortSorts(found, Fuse.FusedOrder());
    var fused := Fuse.Fused(rows, acc, ids);
    PermutedOnce(found, fused);
    FilteredOnce(KeepIn(Surviving(f, later, PublicIds(fused))), fused);
    var gated := Gated(f, later, fused);
    FilteredOnce(Fuse.Scored(q.weights, q.decay, rows), gated);
    SortSorts(FilterMap(Fuse.Scored(q.weights, q.decay, rows), gated), Fuse.ScoreOrder());
    PermutedOnce(FilterMap(Fuse.Scored(q.weights, q.decay, rows), gated), Fuse.Rerank(q.weights, q.decay, gated, rows));
  }

  /** No row is reported twice. */
  lemma ReportedOnce(f: HardFilter, now: Table, later: Table, legs: Legs, q: Query, ids: seq<int>)
    requires Fuse.Distinct(ids)
    ensures OncePerRow(Report(f, now, later, legs, q, ids).hits)
  {
    hide Pack.PackAll, FilterMap, Fuse.Rerank;
    RankedOnce(f, now, later, legs, q, ids);
    var rows := AdmittedRows(f, now, LegIds(legs));
    var ranked := Ranked(f, now, later, legs, q, ids);
    FilteredOnce(KeepScoring(q.minScore), Truncate(ranked, q.k));
    var kept := FilterMap(KeepScoring(q.minScore), Truncate(ranked, q.k));
    var order := Sort(kept, Pack.InjectionOrder(rows));
    Pack.InjectionOrderIsOrder(rows);
    SortSorts(kept, Pack.InjectionOrder(rows));
    PermutedOnce(kept, order);
    Pack.PackSame(q.split, q.budget, kept, rows, q.counter);
  }

  /** The third gate lets a candidate through when the row with its public id is still admitted. */
  lemma GateHolds(f: HardFilter, later: Table, fused: seq<Hit>, h: Hit, x: int)
    requires h in multiset(fused) && x in later && later[x].publicId == h.publicId && Predicate(f, later, x)
    ensures h in multiset(Gated(f, later, fused))
  {
    var i :| 0 <= i < |fused| && fused[i] == h;
    assert h.publicId in PublicIds(fused);
    FilterMapHolds(KeepIn(Surviving(f, later, PublicIds(fused))), fused, h);
  }

  /** An admitted row that a leg supplied, still admitted after fusion, is ranked under its score. */
  lemma RankedHolds(f: HardFilter, now: Table, later: Table, legs: Legs, q: Query, ids: seq<int>, id: int, x: int)
    returns (h: Hit)
    requires IterationOrder(f, now, legs, ids) && id in LegIds(legs) && id in now && Predicate(f, now, id)
    requires x in later && later[x].publicId == now[id].publicId && Predicate(f, later, x)
    ensures h in multiset(Ranked(f, now, later, legs, q, ids)) && h.rowid == id && h.publicId == now[id].publicId
    ensures var rows := AdmittedRows(f, now, LegIds(legs));
            var acc := Fuse.FusedAcc(f, rows, legs.vec, legs.fts);
            && id in acc && h.rrf == acc[id].rrf
            && Fuse.HasScore(h.score, q.weights, Row(id, now[id], None), acc[id].rrf, q.decay)
  {
    hide FilterMap, Gated, Fuse.Fused, Fuse.Rerank, Fuse.HasScore, Fuse.FusedAcc;
    var rows := AdmittedRows(f, now, LegIds(legs));
    var acc := Fuse.FusedAcc(f, rows, legs.vec, legs.fts);
    LoadedRowsAreAdmitted(f, now, LegIds(legs), id);
    assert id in Fuse.VecIds(legs.vec) || id in legs.fts by {
      if i :| 0 <= i < |legs.vec| && legs.vec[i].rowid == id {
        assert Fuse.VecIds(legs.vec)[i] == id;
      }
    }
    Fuse.FusedHolds(f, rows, legs.vec, legs.fts, id);
    var c := Fuse.FusedListHolds(rows, acc, ids, id);
    var fused := Fuse.Fused(rows, acc, ids);
    GateHolds(f, later, fused, c, x);
    h := Fuse.RerankHolds(q.weights, q.decay, Gated(f, later, fused), rows, c);
  }

  /** Every ranked candidate is an admitted row under its score. */
  lemma RankedFrom(f: HardFilter, now: Table, later: Table, legs: Legs, q: Query, ids: seq<int>, h: Hit)
    requires h in multiset(Ranked(f, now, later, legs, q, ids))
    ensures h.rowid in now && Predicate(f, now, h.rowid) && h.publicId == now[h.rowid].publicId
    ensures exists id :: id in later && later[id].publicId == h.publicId && Predicate(f, later, id)
    ensures Fuse.HasScore(h.score, q.weights, Row(h.rowid, now[h.rowid], None), h.rrf, q.decay)
  {
    hide FilterMap, Gated, Fuse.Fused, Fuse.Rerank, Fuse.HasScore, Fuse.FusedAcc;
    var rows := AdmittedRows(f, now, LegIds(legs));
    var acc := Fuse.FusedAcc(f, rows, legs.vec, legs.fts);
    var c := Fuse.RerankFrom(q.weights, q.decay, Gated(f, later, Fuse.Fused(rows, acc, ids)), rows, h);
    GatedComesFrom(f, later, rows, acc, ids, c);
  }

  /** Completeness: an admitted row that some leg supplied and that is still admitted after fusion
      is reported under its score, unless it scores below the floor or `k` other admitted rows score
      at least as much. */
  lemma NothingIsMissed(f: HardFilter, now: Table, later: Table, legs: Legs, q: Query, ids: seq<int>, id: int, x: int)
    returns (h: Hit)
    requires IterationOrder(f, now, legs, ids) && id in LegIds(legs) && id in now && Predicate(f, now, id)
    requires x in later && later[x].publicId == now[id].publicId && Predicate(f, later, x)
    ensures h.rowid == id && Fuse.HasScore(h.score, q.weights, Row(id, now[id], None), h.rrf, q.decay)
    ensures var rows := AdmittedRows(f, now, LegIds(legs));
            var acc := Fuse.FusedAcc(f, rows, legs.vec, legs.fts);
            id in acc && h.rrf == acc[id].rrf
    ensures var r, ranked := Report(f, now, later, legs, q, ids).hits, Ranked(f, now, later, legs, q, ids);
            || (exists i :: 0 <= i < |r| && Pack.SameHit(r[i], h))
            || h.score < q.minScore
            || (|ranked| > q.k && OncePerRow(ranked) && forall j :: 0 <= j < q.k ==>
                  && ranked[j].score >= h.score && ranked[j].rowid != id
                  && ranked[j].rowid in now && Predicate(f, now, ranked[j].rowid))
  {
    hide Pack.PackAll, FilterMap, Fuse.Rerank, Fuse.HasScore, Fuse.FusedAcc, Predicate;
    h := RankedHolds(f, now, later, legs, q, ids, id, x);
    var rows, ranked := AdmittedRows(f, now, LegIds(legs)), Ranked(f, now, later, legs, q, ids);
    RankedOnce(f, now, later, legs, q, ids);
    RankedInOrder(f, now, later, legs, q, ids);
    var i :| 0 <= i < |ranked| && ranked[i] == h;
    if i >= q.k {
      forall j | 0 <= j < q.k
        ensures ranked[j].rowid in now && Predicate(f, now, ranked[j].rowid)
      {
        assert ranked[j] in multiset(ranked);
        RankedFrom(f, now, later, legs, q, ids, ranked[j]);
      }
    } else if h.score >= q.minScore {
      assert Truncate(ranked, q.k)[i] == h;
      FilterMapHolds(KeepScoring(q.minScore), Truncate(ranked, q.k), h);
      var a := Pack.PackHolds(q.split, q.budget, FilterMap(KeepScoring(q.minScore), Truncate(ranked, q.k)), rows,
                              q.counter, h);
    }
  }

  lemma RankedInOrder(f: HardFilter, now: Table, later: Table, legs: Legs, q: Query, ids: seq<int>)
    ensures Fuse.BestFirst(Ranked(f, now, later, legs, q, ids))
  {
    var rows := AdmittedRows(f, now, LegIds(legs));
    var fused := Fuse.Fused(rows, Fuse.FusedAcc(f, rows, legs.vec, legs.fts), ids);
    Fuse.RerankIsBestFirst(q.weights, q.decay, Gated(f, later, fused), rows);
  }

  lemma KeptIsShort(q: Query, admitted: seq<Hit>, rows: Rows)
    ensures |Kept(q, admitted, rows)| <= q.k
  {
    FilterMapShorter(KeepScoring(q.minScore), Truncate(Fuse.Rerank(q.weights, q.decay, admitted, rows), q.k));
  }

  /** One result whatever order the hash map iterates in. */
  lemma ReportForgetsIteration(f: HardFilter, now: Table, later: Table, legs: Legs, q: Query, a: seq<int>, b: seq<int>)
    requires UniquePublicIds(now) && IterationOrder(f, now, legs, a) && IterationOrder(f, now, legs, b)
    ensures Report(f, now, later, legs, q, a) == Report(f, now, later, legs, q, b)
  {
    hide Pack.PackAll, Kept, Gated, Fuse.Fused;
    var rows := AdmittedRows(f, now, LegIds(legs));
    Fuse.FuseForgetsIteration(rows, Fuse.FusedAcc(f, rows, legs.vec, legs.fts), a, b);
  }

  /** The report keeps the packing guarantees: hard ceiling, agreeing totals, every hit
      settled. */
  lemma ReportIsSound(f: HardFilter, now: Table, later: Table, legs: Legs, q: Query, ids: seq<int>)
    ensures var r := Report(f, now, later, legs, q, ids);
            && Pack.Balanced(r, q.budget)
            && forall i :: 0 <= i < |r.hits| ==> r.hits[i].placement != Unpacked
  {
    hide Pack.PackAll, Kept, Gated, FilterMap;
    var rows := AdmittedRows(f, now, LegIds(legs));
    var acc := Fuse.FusedAcc(f, rows, legs.vec, legs.fts);
    var admitted := Gated(f, later, Fuse.Fused(rows, acc, ids));
    var kept := Kept(q, admitted, rows);
    forall i | 0 <= i < |kept|
      ensures kept[i].placement == Unpacked && kept[i].tokens == 0
    {
      assert kept[i] in multiset(kept);
      var c := KeptComesFrom(q, admitted, rows, kept[i]);
      GatedComesFrom(f, later, rows, acc, ids, c);
    }
    Pack.PackIsSound(q.split, q.budget, kept, rows, q.counter);
  }

  // ---- the pipeline --------------------------------------------------------------------------------

  method RowidsOf(legs: Legs) returns (ids: set<int>)
    ensures ids == LegIds(legs)
  {
    ids := (set i | 0 <= i < |legs.vec| :: legs.vec[i].rowid);
    ids := ids + (set i | 0 <= i < |legs.fts| :: legs.fts[i]);
  }

  method Gate(f: HardFilter, later: Table, fused: seq<Hit>) returns (admitted: seq<Hit>)
    ensures admitted == Gated(f, later, fused)
  {
    var surviving := Surviving(f, later, PublicIds(fused));
    admitted := [];
    for i := 0 to |fused|
      invariant admitted == FilterMap(KeepIn(surviving), fused[..i])
    {
      assert fused[..i + 1][..i] == fused[..i];
      if fused[i].publicId in surviving {
        admitted := admitted + [fused[i]];
      }
    }
    assert fused[..|fused|] == fused;
  }

  method CutHits(q: Query, ranked: seq<Hit>) returns (kept: seq<Hit>)
    ensures kept == FilterMap(KeepScoring(q.minScore), Truncate(ranked, q.k))
  {
    var top := Truncate(ranked, q.k);
    kept := [];
    for i := 0 to |top|
      invariant kept == FilterMap(KeepScoring(q.minScore), top[..i])
    {
      assert top[..i + 1][..i] == top[..i];
      if top[i].score >= q.minScore {
        kept := kept + [top[i]];
      }
    }
    assert top[..|top|] == top;
  }

  method RunRecall(f: HardFilter, now: Table, later: Table, legs: Legs, q: Query) returns (r: Pack.Packed)
    ensures exists ids :: IterationOrder(f, now, legs, ids) && r == Report(f, now, later, legs, q, ids)
  {
    var ids := RowidsOf(legs);
    var rows := LoadByRowids(f, now, ids);
    var fused := Fuse.FuseLegs(f, legs.vec, rows, legs.fts);
    var admitted := Gate(f, later, fused);
    var ranked := Fuse.RerankHits(q.weights, q.decay, admitted, rows);
    var kept := CutHits(q, ranked);
    r := Pack.PackHits(q.split, q.budget, kept, rows, q.counter);
    ghost var order :| Fuse.FusedIn(f, rows, legs.vec, legs.fts, order, fused);
    assert IterationOrder(f, now, legs, order);
  }
}
