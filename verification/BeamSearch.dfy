/** Greedy beam search over the stored graph: it ends on every finite graph, even
    one with stale edges, unreadable nodes and a full visited set, and what it
    returns is confirmed, distinct, sorted and locally best. */
module BeamSearch {
  import opened Wrappers
  import opened DiskAnnTables
  import opened Candidates
  import opened VisitedRows

  // ---- every distance a search can ever offer --------------------------------

  /** The finite set of (row, distance) offers this graph and query can produce. */
  ghost function Universe(t: Tables, m: Metric, query: Vec): (u: set<Bid>) {
    (set n, i | n in t.nodes && 0 <= i < |t.nodes[n]| ::
        Bid(t.nodes[n][i].id, m.approx(m.quantize(query), t.nodes[n][i].qvec)))
    + (set r | r in t.vectors :: Bid(r, m.exact(query, t.vectors[r])))
  }

  /** Offers that would still lower some row's least distance. */
  ghost function Fresh(u: set<Bid>, least: Least): (f: set<Bid>) {
    set b | b in u && (b.rowid !in least || b.distance < least[b.rowid])
  }

  ghost function Unvisited(b: multiset<Candidate>): (rows: set<int>) {
    set e | e in b && !e.visited :: e.rowid
  }

  ghost function Expanded(b: multiset<Candidate>): (rows: set<int>) {
    set e | e in b && e.visited :: e.rowid
  }

  ghost function Confirmed(b: multiset<Candidate>): (rows: set<int>) {
    set e | e in b && e.confirmed :: e.rowid
  }

  ghost function Swap(b: multiset<Candidate>, e: Candidate, f: Candidate): multiset<Candidate> {
    b - multiset{e} + multiset{f}
  }

  lemma RecordShrinksFresh(u: set<Bid>, least: Least, b: Bid)
    ensures Fresh(u, Record(least, b.rowid, b.distance)) <= Fresh(u, least)
  {
  }

  /** A new entry appears only when its row's least offered distance strictly drops. */
  lemma CreationIsStrict(s: seq<Candidate>, cap: nat, least: Least, rowid: int, d: real)
    requires 1 <= cap && TopOf(s, cap, least) && Creates(s, cap, rowid, d)
    ensures rowid !in least || d < least[rowid]
  {
    IndexOfHolds(s, rowid);
    if |s| == cap {
      WorstIsLast(s);
    }
  }

  lemma CreationSpendsFresh(s: seq<Candidate>, cap: nat, least: Least, u: set<Bid>, b: Bid)
    requires 1 <= cap && TopOf(s, cap, least) && Creates(s, cap, b.rowid, b.distance) && b in u
    ensures Fresh(u, Record(least, b.rowid, b.distance)) < Fresh(u, least)
  {
    CreationIsStrict(s, cap, least, b.rowid, b.distance);
    RecordShrinksFresh(u, least, b);
    assert b in Fresh(u, least) && b !in Fresh(u, Record(least, b.rowid, b.distance));
  }

  /** Flags of a bag after one entry is replaced by an equally flagged one of the same row. */
  lemma SwapKeepsFlags(b: multiset<Candidate>, e: Candidate, d: real)
    requires e in b
    ensures Expanded(Swap(b, e, e.(distance := d))) <= Expanded(b)
    ensures Confirmed(Swap(b, e, e.(distance := d))) <= Confirmed(b)
    ensures Unvisited(Swap(b, e, e.(distance := d))) <= Unvisited(b)
  {
    assert forall f :: f in Swap(b, e, e.(distance := d)) ==> f in b || f == e.(distance := d);
  }

  lemma NewEntryFlags(b: multiset<Candidate>, b': multiset<Candidate>, c: Candidate)
    requires forall f :: f in b' ==> f in b || f == c
    requires !c.visited && !c.confirmed
    ensures Expanded(b') <= Expanded(b) && Confirmed(b') <= Confirmed(b)
    ensures Unvisited(b') <= Unvisited(b) + {c.rowid}
  {
  }

  /** Flags across an offer: nothing becomes visited or confirmed, and only a
      created entry is newly unvisited. */
  lemma OfferFlags(s: seq<Candidate>, cap: nat, rowid: int, d: real)
    requires 1 <= cap && |s| <= cap
    ensures var b, b' := multiset(s), multiset(Offer(s, cap, rowid, d));
            && Expanded(b') <= Expanded(b)
            && Confirmed(b') <= Confirmed(b)
            && Unvisited(b') <= Unvisited(b) + if Creates(s, cap, rowid, d) then {rowid} else {}
  {
    OfferBag(s, cap, rowid, d);
    var b := multiset(s);
    var i := IndexOf(s, rowid);
    if i < |s| {
      if d < s[i].distance {
        SwapKeepsFlags(b, s[i], d);
        assert OfferedBag(s, cap, rowid, d) == Swap(b, s[i], s[i].(distance := d));
      }
    } else if Creates(s, cap, rowid, d) {
      NewEntryFlags(b, OfferedBag(s, cap, rowid, d), Candidate(rowid, d, false, false));
    }
  }

  // ---- the loop invariant ------------------------------------------------------

  /** A row the search may ever look at. */
  ghost predicate Offerable(t: Tables, r: int) {
    t.medoid == Some(r) || exists n :: n in t.nodes && r in Neighbours(t.nodes[n])
  }

  /** Where offers come from, and what flags on listed entries mean. `pending` is
      the row being expanded: its neighbours are not all offered yet. */
  ghost predicate Sound(b: multiset<Candidate>, least: Least, t: Tables, m: Metric, query: Vec, pending: set<int>) {
    && (forall r :: r in Expanded(b) && r !in pending && r in t.nodes ==> Neighbours(t.nodes[r]) <= least.Keys)
    && (forall r :: r in Confirmed(b) ==>
          r in t.vectors && r in least && least[r] <= m.exact(query, t.vectors[r]))
    && (forall r :: r in least ==> Offerable(t, r))
  }

  ghost predicate BeamInv(s: seq<Candidate>, cap: nat, least: Least, t: Tables, m: Metric, query: Vec,
                          pending: set<int>) {
    1 <= cap && TopOf(s, cap, least) && Sound(multiset(s), least, t, m, query, pending)
  }

  /** What a stretch of the search may do to the list: spend fresh offers, or
      leave no row newly unvisited. */
  ghost predicate Progress(s: seq<Candidate>, least: Least, s': seq<Candidate>, least': Least, u: set<Bid>) {
    && least.Keys <= least'.Keys
    && Fresh(u, least') <= Fresh(u, least)
    && (Fresh(u, least') == Fresh(u, least) ==> Unvisited(multiset(s')) <= Unvisited(multiset(s)))
  }

  lemma SoundShrinks(b: multiset<Candidate>, b': multiset<Candidate>, least: Least, t: Tables, m: Metric, query: Vec,
                     pending: set<int>, rowid: int, d: real)
    requires Sound(b, least, t, m, query, pending) && Offerable(t, rowid)
    requires Expanded(b') <= Expanded(b) && Confirmed(b') <= Confirmed(b)
    ensures Sound(b', Record(least, rowid, d), t, m, query, pending)
  {
  }

  /** One offer keeps the invariant and makes progress. */
  lemma OfferStep(s: seq<Candidate>, cap: nat, least: Least, t: Tables, m: Metric, query: Vec, pending: set<int>,
                  b: Bid)
    requires BeamInv(s, cap, least, t, m, query, pending) && Offerable(t, b.rowid) && b in Universe(t, m, query)
    ensures BeamInv(Offer(s, cap, b.rowid, b.distance), cap, Record(least, b.rowid, b.distance), t, m, query, pending)
    ensures Progress(s, least, Offer(s, cap, b.rowid, b.distance), Record(least, b.rowid, b.distance),
                     Universe(t, m, query))
  {
    OfferKeepsTop(s, cap, least, b.rowid, b.distance);
    OfferFlags(s, cap, b.rowid, b.distance);
    SoundShrinks(multiset(s), multiset(Offer(s, cap, b.rowid, b.distance)), least, t, m, query, pending, b.rowid,
        b.distance);
    RecordShrinksFresh(Universe(t, m, query), least, b);
    if Creates(s, cap, b.rowid, b.distance) {
      CreationSpendsFresh(s, cap, least, Universe(t, m, query), b);
    }
  }

  // ---- flags of one entry ------------------------------------------------------------

  lemma UpdateBag(s: seq<Candidate>, i: nat, f: Candidate)
    requires i < |s|
    ensures multiset(s[i := f]) == Swap(multiset(s), s[i], f)
  {
    assert s == s[..i] + [s[i]] + s[i + 1..];
    assert s[i := f] == s[..i] + [f] + s[i + 1..];
  }

  /** Rewriting flags does not touch what `TopBag` reads. */
  lemma ReflagKeepsTop(b: multiset<Candidate>, least: Least, e: Candidate, f: Candidate)
    requires TopBag(b, least) && e in b && f.rowid == e.rowid && f.distance == e.distance
    ensures TopBag(Swap(b, e, f), least)
    ensures HoldsAll(b, least) ==> HoldsAll(Swap(b, e, f), least)
  {
    var b' := Swap(b, e, f);
    DistinctAfter(b, e, f);
    assert f in b';
    forall q | Holds(b, q)
      ensures Holds(b', q)
    {
      var g :| g in b && g.rowid == q;
      assert (if g == e then f else g) in b';
    }
    forall q, g | q in least && !Holds(b', q) && g in b'
      ensures g.distance <= least[q]
    {
      assert (if g == f then e else g) in b;
    }
  }

  lemma SwapMembers(b: multiset<Candidate>, e: Candidate, f: Candidate)
    requires Distinct(b) && e in b && f.rowid == e.rowid
    ensures f in Swap(b, e, f)
    ensures forall g :: g in Swap(b, e, f) <==> g == f || (g in b && g.rowid != e.rowid)
    ensures forall g :: g in b <==> g == e || (g in b && g.rowid != e.rowid)
  {
    DistinctAfter(b, e, f);
  }

  /** Marking entry `e` as visited moves its row from unvisited to expanded. */
  lemma VisitSets(b: multiset<Candidate>, e: Candidate)
    requires Distinct(b) && e in b && !e.visited
    ensures var b' := Swap(b, e, e.(visited := true));
            && Unvisited(b') == Unvisited(b) - {e.rowid}
            && Expanded(b') <= Expanded(b) + {e.rowid}
            && Confirmed(b') <= Confirmed(b)
            && e.rowid in Unvisited(b)
  {
    SwapMembers(b, e, e.(visited := true));
  }

  lemma ConfirmSets(b: multiset<Candidate>, e: Candidate)
    requires Distinct(b) && e in b
    ensures var b' := Swap(b, e, e.(confirmed := true));
            && Unvisited(b') <= Unvisited(b)
            && Expanded(b') <= Expanded(b)
            && Confirmed(b') <= Confirmed(b) + {e.rowid}
  {
    SwapMembers(b, e, e.(confirmed := true));
  }

  lemma ReflagSorted(s: seq<Candidate>, i: nat, f: Candidate)
    requires Sorted(s) && i < |s| && f.distance == s[i].distance
    ensures Sorted(s[i := f])
  {
  }

  lemma ReflagTop(s: seq<Candidate>, cap: nat, least: Least, i: nat, f: Candidate)
    requires TopOf(s, cap, least) && i < |s| && f.rowid == s[i].rowid && f.distance == s[i].distance
    ensures TopOf(s[i := f], cap, least)
  {
    assert s[i] in multiset(s);
    ReflagSorted(s, i, f);
    UpdateBag(s, i, f);
    ReflagKeepsTop(multiset(s), least, s[i], f);
  }

  // ---- one expansion --------------------------------------------------------------

  lemma ProgressChains(s: seq<Candidate>, l: Least, s': seq<Candidate>, l': Least, s'': seq<Candidate>, l'': Least,
                       u: set<Bid>)
    requires Progress(s, l, s', l', u) && Progress(s', l', s'', l'', u)
    ensures Progress(s, l, s'', l'', u)
  {
  }

  function OfferEach(s: seq<Candidate>, cap: nat, offers: seq<Bid>): (r: seq<Candidate>)
    requires 1 <= cap && |s| <= cap
    ensures |r| <= cap
    decreases |offers|
  {
    if offers == [] then s else
      var n := |offers| - 1;
      Offer(OfferEach(s, cap, offers[..n]), cap, offers[n].rowid, offers[n].distance)
  }

  function RecordEach(least: Least, offers: seq<Bid>): (r: Least)
    ensures r.Keys == least.Keys + set b | b in offers :: b.rowid
  {
    if offers == [] then least else
      var n := |offers| - 1;
      assert offers == offers[..n] + [offers[n]];
      Record(RecordEach(least, offers[..n]), offers[n].rowid, offers[n].distance)
  }

  /** The offers one node makes: its valid neighbours not remembered as expanded. */
  function NodeOffers(node: Node, m: Metric, queryQ: QVec, seen: set<int>): (offers: seq<Bid>) {
    if node == [] then [] else
      var n := |node| - 1;
      var before := NodeOffers(node[..n], m, queryQ, seen);
      if node[n].valid && node[n].id !in seen
      then before + [Bid(node[n].id, m.approx(queryQ, node[n].qvec))]
      else before
  }

  lemma {:induction false} NodeOffersExactly(node: Node, m: Metric, queryQ: QVec, seen: set<int>)
    ensures forall b :: b in NodeOffers(node, m, queryQ, seen) <==>
              exists i :: 0 <= i < |node| && node[i].valid && node[i].id !in seen
                && b == Bid(node[i].id, m.approx(queryQ, node[i].qvec))
  {
    if node != [] {
      var n := |node| - 1;
      NodeOffersExactly(node[..n], m, queryQ, seen);
      forall b
        ensures b in NodeOffers(node, m, queryQ, seen) <==>
              exists i :: 0 <= i < |node| && node[i].valid && node[i].id !in seen
                && b == Bid(node[i].id, m.approx(queryQ, node[i].qvec))
      {
        if i :| 0 <= i < |node| && node[i].valid && node[i].id !in seen
                && b == Bid(node[i].id, m.approx(queryQ, node[i].qvec)) {
          if i < n {
            assert node[..n][i] == node[i];
          }
        }
        if b in NodeOffers(node[..n], m, queryQ, seen) {
          var i :| 0 <= i < n && node[..n][i].valid && node[..n][i].id !in seen
                && b == Bid(node[..n][i].id, m.approx(queryQ, node[..n][i].qvec));
          assert node[i] == node[..n][i];
        }
      }
    }
  }

  lemma {:induction false} OfferEachStep(s: seq<Candidate>, cap: nat, least: Least, t: Tables, m: Metric, query: Vec,
                                         pending: set<int>, offers: seq<Bid>)
    requires BeamInv(s, cap, least, t, m, query, pending)
    requires forall b :: b in offers ==> Offerable(t, b.rowid) && b in Universe(t, m, query)
    ensures BeamInv(OfferEach(s, cap, offers), cap, RecordEach(least, offers), t, m, query, pending)
    ensures Progress(s, least, OfferEach(s, cap, offers), RecordEach(least, offers), Universe(t, m, query))
    decreases |offers|
  {
    if offers != [] {
      var n := |offers| - 1;
      OfferEachStep(s, cap, least, t, m, query, pending, offers[..n]);
      var s1, l1 := OfferEach(s, cap, offers[..n]), RecordEach(least, offers[..n]);
      OfferStep(s1, cap, l1, t, m, query, pending, offers[n]);
      ProgressChains(s, least, s1, l1, Offer(s1, cap, offers[n].rowid, offers[n].distance),
                     Record(l1, offers[n].rowid, offers[n].distance), Universe(t, m, query));
    }
  }

  lemma NodeOffersLegal(t: Tables, m: Metric, query: Vec, row: int, seen: set<int>)
    requires row in t.nodes
    ensures forall b :: b in NodeOffers(t.nodes[row], m, m.quantize(query), seen) ==>
              Offerable(t, b.rowid) && b in Universe(t, m, query)
  {
    var node := t.nodes[row];
    NodeOffersExactly(node, m, m.quantize(query), seen);
    forall b | b in NodeOffers(node, m, m.quantize(query), seen)
      ensures Offerable(t, b.rowid) && b in Universe(t, m, query)
    {
      assert b.rowid in Neighbours(node);
    }
  }

  lemma NodeOffersCover(node: Node, m: Metric, queryQ: QVec, seen: set<int>, least: Least)
    requires seen <= least.Keys
    ensures Neighbours(node) <= RecordEach(least, NodeOffers(node, m, queryQ, seen)).Keys
  {
    var offers := NodeOffers(node, m, queryQ, seen);
    NodeOffersExactly(node, m, queryQ, seen);
    forall r | r in Neighbours(node)
      ensures r in RecordEach(least, offers)
    {
      var i :| 0 <= i < |node| && node[i].valid && node[i].id == r;
      assert r !in seen ==> Bid(r, m.approx(queryQ, node[i].qvec)) in offers;
    }
  }

  lemma SoundSettles(b: multiset<Candidate>, least: Least, t: Tables, m: Metric, query: Vec, row: int)
    requires Sound(b, least, t, m, query, {row}) && row in t.nodes && Neighbours(t.nodes[row]) <= least.Keys
    ensures Sound(b, least, t, m, query, {})
  {
  }

  /** Offering a node's neighbours leaves every one of them offered. */
  lemma NodeStep(s: seq<Candidate>, cap: nat, least: Least, t: Tables, m: Metric, query: Vec, row: int, seen: set<int>)
    requires BeamInv(s, cap, least, t, m, query, {row}) && row in t.nodes && seen <= least.Keys
    ensures var offers := NodeOffers(t.nodes[row], m, m.quantize(query), seen);
            && BeamInv(OfferEach(s, cap, offers), cap, RecordEach(least, offers), t, m, query, {})
            && Progress(s, least, OfferEach(s, cap, offers), RecordEach(least, offers), Universe(t, m, query))
  {
    var offers := NodeOffers(t.nodes[row], m, m.quantize(query), seen);
    NodeOffersLegal(t, m, query, row, seen);
    OfferEachStep(s, cap, least, t, m, query, {row}, offers);
    NodeOffersCover(t.nodes[row], m, m.quantize(query), seen, least);
    SoundSettles(multiset(OfferEach(s, cap, offers)), RecordEach(least, offers), t, m, query, row);
  }

  method OfferNeighbours(list: CandidateList, visited: VisitedSet, node: Node, m: Metric, queryQ: QVec)
    requires list.Valid() && visited.Valid() && list.items as object != visited.slots
    modifies list, list.items
    ensures list.Valid()
    ensures list.Contents()
              == OfferEach(old(list.Contents()), list.capacity, NodeOffers(node, m, queryQ, visited.Rows()))
  {
    ghost var was := list.Contents();
    ghost var seen := visited.Rows();
    for i := 0 to |node|
      invariant list.Valid() && visited.Valid() && visited.Rows() == seen
      invariant list.Contents() == OfferEach(was, list.capacity, NodeOffers(node[..i], m, queryQ, seen))
    {
      assert node[..i + 1][..i] == node[..i];
      ghost var before := NodeOffers(node[..i], m, queryQ, seen);
      if node[i].valid {
        var skip := visited.Contains(node[i].id);
        if !skip {
          var d := m.approx(queryQ, node[i].qvec);
          assert (before + [Bid(node[i].id, d)])[..|before|] == before;
          var _ := list.Insert(node[i].id, d);
        }
      }
    }
    assert node[..|node|] == node;
  }

  // ---- one turn of the search loop ------------------------------------------------

  function Mark(s: seq<Candidate>, i: nat): (r: seq<Candidate>)
    requires i < |s|
    ensures |r| == |s|
  {
    s[i := s[i].(visited := true)]
  }

  function Confirm(s: seq<Candidate>, row: int): (r: seq<Candidate>)
    ensures |r| == |s|
  {
    var i := IndexOf(s, row);
    if i < |s| then s[i := s[i].(confirmed := true)] else s
  }

  /** Rows remembered after expanding `row`: only rows that have a node, never row 0, and none
      once the table of `slots` slots is full. */
  function Remember(t: Tables, slots: nat, seen: set<int>, row: int): (r: set<int>) {
    if row in t.nodes && row != 0 && |seen| < slots then seen + {row} else seen
  }

  /** The list after expanding entry `i`, when rows `seen` are remembered. */
  function Expand(s: seq<Candidate>, cap: nat, i: nat, t: Tables, m: Metric, query: Vec,
                  seen: set<int>): (r: seq<Candidate>)
    requires i < |s| <= cap
    ensures |r| <= cap
  {
    var row := s[i].rowid;
    if row !in t.nodes then Mark(s, i) else
      var s2 := OfferEach(Mark(s, i), cap, NodeOffers(t.nodes[row], m, m.quantize(query), seen));
      if row !in t.vectors then s2 else Confirm(Offer(s2, cap, row, m.exact(query, t.vectors[row])), row)
  }

  ghost function ExpandLeast(least: Least, row: int, t: Tables, m: Metric, query: Vec, seen: set<int>): (r: Least) {
    if row !in t.nodes then least else
      var l2 := RecordEach(least, NodeOffers(t.nodes[row], m, m.quantize(query), seen));
      if row !in t.vectors then l2 else Record(l2, row, m.exact(query, t.vectors[row]))
  }

  lemma MarkStep(s: seq<Candidate>, cap: nat, least: Least, t: Tables, m: Metric, query: Vec, i: nat)
    requires BeamInv(s, cap, least, t, m, query, {}) && i < |s| && !s[i].visited
    ensures BeamInv(Mark(s, i), cap, least, t, m, query, {s[i].rowid})
    ensures Unvisited(multiset(Mark(s, i))) < Unvisited(multiset(s))
  {
    var e := s[i];
    assert e in multiset(s);
    ReflagTop(s, cap, least, i, e.(visited := true));
    UpdateBag(s, i, e.(visited := true));
    VisitSets(multiset(s), e);
  }

  lemma SoundConfirmed(b: multiset<Candidate>, b': multiset<Candidate>, least: Least, t: Tables, m: Metric,
                       query: Vec, row: int)
    requires Sound(b, least, t, m, query, {})
    requires row in t.vectors && row in least && least[row] <= m.exact(query, t.vectors[row])
    requires Expanded(b') <= Expanded(b) && Confirmed(b') <= Confirmed(b) + {row}
    ensures Sound(b', least, t, m, query, {})
  {
  }

  lemma ConfirmStep(s: seq<Candidate>, cap: nat, least: Least, t: Tables, m: Metric, query: Vec, row: int)
    requires BeamInv(s, cap, least, t, m, query, {})
    requires row in t.vectors && row in least && least[row] <= m.exact(query, t.vectors[row])
    ensures BeamInv(Confirm(s, row), cap, least, t, m, query, {})
    ensures Unvisited(multiset(Confirm(s, row))) <= Unvisited(multiset(s))
  {
    var i := IndexOf(s, row);
    if i < |s| {
      var e := s[i];
      assert e in multiset(s);
      ReflagTop(s, cap, least, i, e.(confirmed := true));
      UpdateBag(s, i, e.(confirmed := true));
      ConfirmSets(multiset(s), e);
      SoundConfirmed(multiset(s), multiset(Confirm(s, row)), least, t, m, query, row);
    }
  }

  // ---- every readable row that is expanded gets confirmed ----------------------------

  /** Visited entries of rows with a node and a vector are confirmed, `pending` aside. */
  ghost predicate Checked(b: multiset<Candidate>, t: Tables, pending: set<int>) {
    forall e :: e in b && e.visited && e.rowid in t.nodes && e.rowid in t.vectors && e.rowid !in pending ==> e.confirmed
  }

  lemma OfferKeepsChecked(s: seq<Candidate>, cap: nat, t: Tables, pending: set<int>, rowid: int, d: real)
    requires 1 <= cap && |s| <= cap && Checked(multiset(s), t, pending)
    ensures Checked(multiset(Offer(s, cap, rowid, d)), t, pending)
  {
    OfferBag(s, cap, rowid, d);
    var i := IndexOf(s, rowid);
    assert i < |s| ==> s[i] in multiset(s);
    assert forall f :: f in OfferedBag(s, cap, rowid, d) ==>
        f in multiset(s) || !f.visited || (i < |s| && f == s[i].(distance := d));
  }

  lemma {:induction false} OffersKeepChecked(s: seq<Candidate>, cap: nat, t: Tables, pending: set<int>,
                                             offers: seq<Bid>)
    requires 1 <= cap && |s| <= cap && Checked(multiset(s), t, pending)
    ensures Checked(multiset(OfferEach(s, cap, offers)), t, pending)
    decreases |offers|
  {
    if offers != [] {
      var n := |offers| - 1;
      OffersKeepChecked(s, cap, t, pending, offers[..n]);
      OfferKeepsChecked(OfferEach(s, cap, offers[..n]), cap, t, pending, offers[n].rowid, offers[n].distance);
    }
  }

  lemma MarkKeepsChecked(s: seq<Candidate>, i: nat, t: Tables)
    requires i < |s| && Checked(multiset(s), t, {})
    ensures Checked(multiset(Mark(s, i)), t, {s[i].rowid})
  {
    UpdateBag(s, i, s[i].(visited := true));
  }

  /** Confirming the pending row settles it: the list holds one entry per row. */
  lemma ConfirmChecks(s: seq<Candidate>, t: Tables, row: int)
    requires Distinct(multiset(s)) && Checked(multiset(s), t, {row})
    ensures Checked(multiset(Confirm(s, row)), t, {})
  {
    IndexOfHolds(s, row);
    var i := IndexOf(s, row);
    if i < |s| {
      assert s[i] in multiset(s);
      UpdateBag(s, i, s[i].(confirmed := true));
      SwapMembers(multiset(s), s[i], s[i].(confirmed := true));
    }
  }

  /** One turn of the loop confirms the row it expands whenever node and vector can be read. */
  lemma ExpandKeepsChecked(s: seq<Candidate>, cap: nat, least: Least, t: Tables, m: Metric, query: Vec, i: nat,
                           seen: set<int>)
    requires BeamInv(s, cap, least, t, m, query, {}) && i < |s| && !s[i].visited && seen <= least.Keys
    requires Checked(multiset(s), t, {})
    ensures Checked(multiset(Expand(s, cap, i, t, m, query, seen)), t, {})
  {
    var row := s[i].rowid;
    assert s[i] in multiset(s);
    MarkKeepsChecked(s, i, t);
    if row in t.nodes {
      var offers := NodeOffers(t.nodes[row], m, m.quantize(query), seen);
      OffersKeepChecked(Mark(s, i), cap, t, {row}, offers);
      if row in t.vectors {
        var s2 := OfferEach(Mark(s, i), cap, offers);
        var d := m.exact(query, t.vectors[row]);
        MarkStep(s, cap, least, t, m, query, i);
        NodeStep(Mark(s, i), cap, least, t, m, query, row, seen);
        OfferKeepsChecked(s2, cap, t, {row}, row, d);
        OfferDistinct(s2, cap, row, d);
        ConfirmChecks(Offer(s2, cap, row, d), t, row);
      }
    }
  }

  /** After marking: offering the neighbours, then the exact distance. */
  lemma ReadStep(s: seq<Candidate>, cap: nat, least: Least, t: Tables, m: Metric, query: Vec, row: int, seen: set<int>)
    requires BeamInv(s, cap, least, t, m, query, {row}) && row in t.nodes && row in least && seen <= least.Keys
    ensures var s2 := OfferEach(s, cap, NodeOffers(t.nodes[row], m, m.quantize(query), seen));
            var s3 := if row !in t.vectors then s2
                else Confirm(Offer(s2, cap, row, m.exact(query, t.vectors[row])), row);
            var l3 := ExpandLeast(least, row, t, m, query, seen);
            && BeamInv(s3, cap, l3, t, m, query, {})
            && Progress(s, least, s3, l3, Universe(t, m, query))
  {
    NodeStep(s, cap, least, t, m, query, row, seen);
    var offers := NodeOffers(t.nodes[row], m, m.quantize(query), seen);
    var s2, l2 := OfferEach(s, cap, offers), RecordEach(least, offers);
    if row in t.vectors {
      var d := m.exact(query, t.vectors[row]);
      ExactStep(s2, cap, l2, t, m, query, row);
      ProgressChains(s, least, s2, l2, Confirm(Offer(s2, cap, row, d), row), Record(l2, row, d), Universe(t, m, query));
    }
  }

  /** Lexicographic descent of (fresh offers, unvisited rows). */
  ghost predicate Turn(s: seq<Candidate>, least: Least, s': seq<Candidate>, least': Least, u: set<Bid>) {
    && least.Keys <= least'.Keys
    && Fresh(u, least') <= Fresh(u, least)
    && (Fresh(u, least') == Fresh(u, least) ==> Unvisited(multiset(s')) < Unvisited(multiset(s)))
  }

  lemma MarkThenProgress(s: seq<Candidate>, s1: seq<Candidate>, least: Least, s': seq<Candidate>, least': Least,
                         u: set<Bid>)
    requires Unvisited(multiset(s1)) < Unvisited(multiset(s)) && Progress(s1, least, s', least', u)
    ensures Turn(s, least, s', least', u)
  {
  }

  /** One turn keeps the invariant and descends, whatever is stale, unreadable,
      evicted or forgotten. */
  lemma ExpandStep(s: seq<Candidate>, cap: nat, least: Least, t: Tables, m: Metric, query: Vec, i: nat, seen: set<int>)
    requires BeamInv(s, cap, least, t, m, query, {}) && i < |s| && !s[i].visited && seen <= least.Keys
    ensures s[i].rowid in least
    ensures BeamInv(Expand(s, cap, i, t, m, query, seen), cap, ExpandLeast(least, s[i].rowid, t, m, query, seen), t,
              m, query, {})
    ensures Turn(s, least, Expand(s, cap, i, t, m, query, seen), ExpandLeast(least, s[i].rowid, t, m, query, seen),
                 Universe(t, m, query))
  {
    var row := s[i].rowid;
    assert s[i] in multiset(s);
    MarkStep(s, cap, least, t, m, query, i);
    if row in t.nodes {
      ReadStep(Mark(s, i), cap, least, t, m, query, row, seen);
      MarkThenProgress(s, Mark(s, i), least, Expand(s, cap, i, t, m, query, seen),
                       ExpandLeast(least, row, t, m, query, seen), Universe(t, m, query));
    }
  }

  lemma ExactStep(s: seq<Candidate>, cap: nat, least: Least, t: Tables, m: Metric, query: Vec, row: int)
    requires BeamInv(s, cap, least, t, m, query, {}) && row in t.vectors && row in least
    ensures var d := m.exact(query, t.vectors[row]);
            && BeamInv(Confirm(Offer(s, cap, row, d), row), cap, Record(least, row, d), t, m, query, {})
            && Progress(s, least, Confirm(Offer(s, cap, row, d), row), Record(least, row, d), Universe(t, m, query))
  {
    var d := m.exact(query, t.vectors[row]);
    assert Bid(row, d) in Universe(t, m, query);
    OfferStep(s, cap, least, t, m, query, {}, Bid(row, d));
    ConfirmStep(Offer(s, cap, row, d), cap, Record(least, row, d), t, m, query, row);
  }

  method ExpandEntry(list: CandidateList, visited: VisitedSet, t: Tables, m: Metric, query: Vec, queryQ: QVec, i: nat)
    requires list.Valid() && visited.Valid() && list.items as object != visited.slots
    requires i < list.count && queryQ == m.quantize(query)
    modifies list, list.items, visited, visited.slots
    ensures list.Valid() && visited.Valid()
    ensures visited.Rows() == Remember(t, visited.slots.Length, old(visited.Rows()), old(list.items[i].rowid))
    ensures list.Contents() == Expand(old(list.Contents()), list.capacity, i, t, m, query, old(visited.Rows()))
  {
    ghost var s, seen := list.Contents(), visited.Rows();
    list.items[i] := list.items[i].(visited := true);
    assert list.Contents() == Mark(s, i);
    var row := list.items[i].rowid;
    if row !in t.nodes {
      return;
    }
    OfferNeighbours(list, visited, t.nodes[row], m, queryQ);
    RoomLeft(visited.slots[..]);
    var _ := visited.Insert(row);
    if row in t.vectors {
      var _ := list.Insert(row, m.exact(query, t.vectors[row]));
      ConfirmRow(list, row);
    }
  }

  method ConfirmRow(list: CandidateList, row: int)
    requires list.Valid()
    modifies list.items
    ensures list.Valid() && list.Contents() == Confirm(old(list.Contents()), row)
  {
    var at := list.Find(row);
    if at < list.count {
      ReflagSorted(list.Contents(), at, list.items[at].(confirmed := true));
      list.items[at] := list.items[at].(confirmed := true);
      assert list.Contents() == Confirm(old(list.Contents()), row);
    }
  }

  method NextUnvisited(list: CandidateList) returns (i: nat)
    requires list.Valid()
    ensures i <= list.count
    ensures i < list.count ==> !list.items[i].visited
    ensures forall j :: 0 <= j < i ==> list.items[j].visited
    ensures i == list.count ==> Unvisited(multiset(list.Contents())) == {}
  {
    i := 0;
    while i < list.count && list.items[i].visited
      invariant i <= list.count
      invariant forall k :: 0 <= k < i ==> list.items[k].visited
    {
      i := i + 1;
    }
    if i == list.count {
      assert forall e :: e in multiset(list.Contents()) ==> e in list.Contents();
    }
  }

  // ---- the search -------------------------------------------------------------------

  function ConfirmedOnly(s: seq<Candidate>): (r: seq<Bid>)
    ensures |r| <= |s|
  {
    if s == [] then [] else
      var n := |s| - 1;
      ConfirmedOnly(s[..n]) + if s[n].confirmed then [Bid(s[n].rowid, s[n].distance)] else []
  }

  function Take<T>(s: seq<T>, k: nat): (r: seq<T>) {
    if |s| <= k then s else s[..k]
  }

  // ---- runs of the search loop --------------------------------------------------------

  /** One turn: which entry was expanded, and which rows were remembered then. */
  datatype Step = Step(i: nat, seen: set<int>)

  /** What a search is fixed on: column, query, width. */
  datatype Task = Task(t: Tables, m: Metric, query: Vec, cap: nat)

  /** Slots of the table that remembers expanded rows. */
  function MemorySlots(k: Task): (slots: nat) {
    TableSize(4 * k.cap, 16)
  }

  /** The table is a power of two, of at least 16 slots and four for each listed candidate. */
  lemma MemoryIsWide(k: Task)
    ensures 16 <= MemorySlots(k) && 4 * k.cap <= MemorySlots(k) && PowerOfTwo(MemorySlots(k))
    ensures MemorySlots(k) == 16 || MemorySlots(k) < 8 * k.cap
  {
    assert PowerOfTwo(16) && PowerOfTwo(8) && PowerOfTwo(4);
    TableSizeDoubles(4 * k.cap, 16);
  }

  ghost function RunList(k: Task, s: seq<Candidate>, run: seq<Step>): (r: seq<Candidate>)
    requires |s| <= k.cap
    ensures |r| <= k.cap
  {
    if run == [] then s else
      var n := |run| - 1;
      var before := RunList(k, s, run[..n]);
      if run[n].i < |before| then Expand(before, k.cap, run[n].i, k.t, k.m, k.query, run[n].seen) else before
  }

  ghost function RunLeast(k: Task, s: seq<Candidate>, least: Least, run: seq<Step>): (r: Least)
    requires |s| <= k.cap
  {
    if run == [] then least else
      var n := |run| - 1;
      var before := RunList(k, s, run[..n]);
      var l := RunLeast(k, s, least, run[..n]);
      if run[n].i < |before| then ExpandLeast(l, before[run[n].i].rowid, k.t, k.m, k.query, run[n].seen) else l
  }

  /** The rows remembered after a run. */
  ghost function Remembered(k: Task, s: seq<Candidate>, run: seq<Step>): (seen: set<int>)
    requires |s| <= k.cap
  {
    if run == [] then {} else
      var n := |run| - 1;
      var before := RunList(k, s, run[..n]);
      var seen := Remembered(k, s, run[..n]);
      if run[n].i < |before| then Remember(k.t, MemorySlots(k), seen, before[run[n].i].rowid) else seen
  }

  /** Every turn expanded the first unvisited entry, the nearest one, skipping the rows
      remembered so far; only offered rows are remembered. */
  ghost predicate ValidRun(k: Task, s: seq<Candidate>, least: Least, run: seq<Step>)
    requires |s| <= k.cap
  {
    run == [] ||
    var n := |run| - 1;
    var before := RunList(k, s, run[..n]);
    && ValidRun(k, s, least, run[..n])
    && run[n].i < |before| && !before[run[n].i].visited && (forall j :: 0 <= j < run[n].i ==> before[j].visited)
    && run[n].seen == Remembered(k, s, run[..n])
    && run[n].seen <= RunLeast(k, s, least, run[..n]).Keys
  }

  /** The rows whose nodes a run read and expanded. */
  ghost function ReadRows(k: Task, s: seq<Candidate>, run: seq<Step>): (rows: set<int>)
    requires |s| <= k.cap
  {
    set j | 0 <= j < |run| && run[j].i < |RunList(k, s, run[..j])|
            && RunList(k, s, run[..j])[run[j].i].rowid in k.t.nodes :: RunList(k, s, run[..j])[run[j].i].rowid
  }

  lemma ReadRowsSnoc(k: Task, s: seq<Candidate>, run: seq<Step>, n: nat, x: int)
    requires |s| <= k.cap && |run| == n + 1
    ensures var before := RunList(k, s, run[..n]);
            x in ReadRows(k, s, run) <==>
              || x in ReadRows(k, s, run[..n])
              || (run[n].i < |before| && x == before[run[n].i].rowid && x in k.t.nodes)
  {
    hide RunList;
    forall j | 0 <= j < n ensures run[..n][..j] == run[..j] {
    }
    if x in ReadRows(k, s, run) {
      var j :| 0 <= j < |run| && run[j].i < |RunList(k, s, run[..j])|
               && RunList(k, s, run[..j])[run[j].i].rowid in k.t.nodes && x == RunList(k, s, run[..j])[run[j].i].rowid;
      assert j < n ==> run[..n][j] == run[j];
    }
    if x in ReadRows(k, s, run[..n]) {
      var j :| 0 <= j < n && run[..n][j].i < |RunList(k, s, run[..n][..j])|
               && RunList(k, s, run[..n][..j])[run[..n][j].i].rowid in k.t.nodes
               && x == RunList(k, s, run[..n][..j])[run[..n][j].i].rowid;
      assert run[..n][j] == run[j];
    }
  }

  lemma ReadRowsNext(k: Task, s: seq<Candidate>, run: seq<Step>, n: nat)
    requires |s| <= k.cap && |run| == n + 1
    ensures var before, rows := RunList(k, s, run[..n]), ReadRows(k, s, run[..n]);
            ReadRows(k, s, run) == if run[n].i < |before| && before[run[n].i].rowid in k.t.nodes
                                   then rows + {before[run[n].i].rowid} else rows
  {
    hide RunList, ReadRows;
    forall x {
      ReadRowsSnoc(k, s, run, n, x);
    }
  }

  lemma RememberStep(t: Tables, slots: nat, seen: set<int>, rows: set<int>, row: int)
    requires seen <= rows - {0} && |seen| <= slots && (|seen| < slots ==> seen == rows - {0})
    ensures var seen', rows' := Remember(t, slots, seen, row), rows + (if row in t.nodes then {row} else {});
            seen' <= rows' - {0} && |seen'| <= slots && (|seen'| < slots ==> seen' == rows' - {0})
  {
    if row in seen {
      assert seen + {row} == seen;
    }
  }

  /** What a search remembers: the rows it expanded other than row 0, all of them while the table
      has room. */
  lemma {:induction false} RememberedExactly(k: Task, s: seq<Candidate>, run: seq<Step>)
    requires |s| <= k.cap
    ensures Remembered(k, s, run) <= ReadRows(k, s, run) - {0} && |Remembered(k, s, run)| <= MemorySlots(k)
    ensures |Remembered(k, s, run)| < MemorySlots(k) ==> Remembered(k, s, run) == ReadRows(k, s, run) - {0}
    decreases |run|
  {
    if run != [] {
      hide RunList, MemorySlots, ReadRows, Remember;
      var n := |run| - 1;
      RememberedExactly(k, s, run[..n]);
      ReadRowsNext(k, s, run, n);
      var before := RunList(k, s, run[..n]);
      if run[n].i < |before| {
        RememberStep(k.t, MemorySlots(k), Remembered(k, s, run[..n]), ReadRows(k, s, run[..n]), before[run[n].i].rowid);
      }
    }
  }

  lemma {:induction false} RunKeepsInvariant(k: Task, s: seq<Candidate>, least: Least, run: seq<Step>)
    requires |s| <= k.cap && BeamInv(s, k.cap, least, k.t, k.m, k.query, {}) && ValidRun(k, s, least, run)
    ensures BeamInv(RunList(k, s, run), k.cap, RunLeast(k, s, least, run), k.t, k.m, k.query, {})
    ensures least.Keys <= RunLeast(k, s, least, run).Keys
  {
    if run != [] {
      var n := |run| - 1;
      RunKeepsInvariant(k, s, least, run[..n]);
      ExpandStep(RunList(k, s, run[..n]), k.cap, RunLeast(k, s, least, run[..n]), k.t, k.m, k.query, run[n].i,
          run[n].seen);
    }
  }

  lemma {:induction false} RunKeepsChecked(k: Task, s: seq<Candidate>, least: Least, run: seq<Step>)
    requires |s| <= k.cap && BeamInv(s, k.cap, least, k.t, k.m, k.query, {}) && ValidRun(k, s, least, run)
    requires Checked(multiset(s), k.t, {})
    ensures Checked(multiset(RunList(k, s, run)), k.t, {})
  {
    if run != [] {
      var n := |run| - 1;
      RunKeepsInvariant(k, s, least, run[..n]);
      RunKeepsChecked(k, s, least, run[..n]);
      ExpandKeepsChecked(RunList(k, s, run[..n]), k.cap, RunLeast(k, s, least, run[..n]), k.t, k.m, k.query, run[n].i,
                         run[n].seen);
    }
  }

  ghost function FreshAfter(k: Task, s: seq<Candidate>, least: Least, run: seq<Step>): (f: set<Bid>)
    requires |s| <= k.cap
  {
    Fresh(Universe(k.t, k.m, k.query), RunLeast(k, s, least, run))
  }

  ghost function UnvisitedAfter(k: Task, s: seq<Candidate>, run: seq<Step>): (rows: set<int>)
    requires |s| <= k.cap
  {
    Unvisited(multiset(RunList(k, s, run)))
  }

  /** Termination: the last turn of any run descends. */
  lemma LastTurnDescends(k: Task, s: seq<Candidate>, least: Least, run: seq<Step>)
    requires |s| <= k.cap && BeamInv(s, k.cap, least, k.t, k.m, k.query, {}) && ValidRun(k, s, least, run) && run != []
    ensures var prev := run[..|run| - 1];
            && FreshAfter(k, s, least, run) <= FreshAfter(k, s, least, prev)
            && (FreshAfter(k, s, least, run) == FreshAfter(k, s, least, prev) ==>
                  UnvisitedAfter(k, s, run) < UnvisitedAfter(k, s, prev))
    ensures var prev := run[..|run| - 1];
            && RunLeast(k, s, least, prev).Keys <= RunLeast(k, s, least, run).Keys
            && RunList(k, s, prev)[run[|run| - 1].i].rowid in RunLeast(k, s, least, prev)
  {
    var n := |run| - 1;
    RunKeepsInvariant(k, s, least, run[..n]);
    ExpandStep(RunList(k, s, run[..n]), k.cap, RunLeast(k, s, least, run[..n]), k.t, k.m, k.query, run[n].i,
        run[n].seen);
  }

  method OneTurn(list: CandidateList, visited: VisitedSet, k: Task, queryQ: QVec, i: nat,
                 ghost s: seq<Candidate>, ghost least: Least, ghost run: seq<Step>)
    returns (ghost next: seq<Step>)
    requires list.Valid() && visited.Valid() && list.items as object != visited.slots && k.cap == list.capacity
    requires i < list.count && !list.items[i].visited && queryQ == k.m.quantize(k.query)
    requires forall j :: 0 <= j < i ==> list.items[j].visited
    requires |s| <= k.cap && BeamInv(s, k.cap, least, k.t, k.m, k.query, {})
    requires ValidRun(k, s, least, run) && list.Contents() == RunList(k, s, run)
    requires visited.Rows() == Remembered(k, s, run) && visited.slots.Length == MemorySlots(k)
    requires visited.Rows() <= RunLeast(k, s, least, run).Keys
    modifies list, list.items, visited, visited.slots
    ensures list.Valid() && visited.Valid()
    ensures ValidRun(k, s, least, next) && list.Contents() == RunList(k, s, next)
    ensures visited.Rows() == Remembered(k, s, next)
    ensures visited.Rows() <= RunLeast(k, s, least, next).Keys
    ensures FreshAfter(k, s, least, next) <= FreshAfter(k, s, least, run)
    ensures FreshAfter(k, s, least, next) == FreshAfter(k, s, least, run) ==>
              UnvisitedAfter(k, s, next) < UnvisitedAfter(k, s, run)
  {
    next := run + [Step(i, visited.Rows())];
    RunExtends(k, s, least, run, Step(i, visited.Rows()));
    hide BeamInv, ValidRun, RunList, RunLeast, Remembered, FreshAfter, UnvisitedAfter, Expand, Remember, MemorySlots;
    ExpandEntry(list, visited, k.t, k.m, k.query, queryQ, i);
  }

  /** A run is extended by expanding its first unvisited entry. */
  lemma RunExtends(k: Task, s: seq<Candidate>, least: Least, run: seq<Step>, step: Step)
    requires |s| <= k.cap && BeamInv(s, k.cap, least, k.t, k.m, k.query, {}) && ValidRun(k, s, least, run)
    requires step.i < |RunList(k, s, run)| && !RunList(k, s, run)[step.i].visited
    requires forall j :: 0 <= j < step.i ==> RunList(k, s, run)[j].visited
    requires step.seen == Remembered(k, s, run) && step.seen <= RunLeast(k, s, least, run).Keys
    ensures var before, next := RunList(k, s, run), run + [step];
            && ValidRun(k, s, least, next)
            && RunList(k, s, next) == Expand(before, k.cap, step.i, k.t, k.m, k.query, step.seen)
            && Remembered(k, s, next) == Remember(k.t, MemorySlots(k), step.seen, before[step.i].rowid)
            && Remembered(k, s, next) <= RunLeast(k, s, least, next).Keys
            && FreshAfter(k, s, least, next) <= FreshAfter(k, s, least, run)
            && (FreshAfter(k, s, least, next) == FreshAfter(k, s, least, run) ==>
                  UnvisitedAfter(k, s, next) < UnvisitedAfter(k, s, run))
  {
    hide BeamInv, FreshAfter, UnvisitedAfter, Expand, MemorySlots, ExpandLeast;
    var next := run + [step];
    assert next[..|next| - 1] == run;
    LastTurnDescends(k, s, least, next);
  }

  /** Expand until no unvisited entry is left. */
  method Run(list: CandidateList, visited: VisitedSet, k: Task, ghost least: Least)
    returns (ghost run: seq<Step>)
    requires list.Valid() && visited.Valid() && list.items as object != visited.slots && k.cap == list.capacity
    requires BeamInv(list.Contents(), k.cap, least, k.t, k.m, k.query, {})
    requires visited.Rows() == {} && visited.slots.Length == MemorySlots(k)
    modifies list, list.items, visited, visited.slots
    ensures list.Valid()
    ensures ValidRun(k, old(list.Contents()), least, run)
    ensures list.Contents() == RunList(k, old(list.Contents()), run)
    ensures UnvisitedAfter(k, old(list.Contents()), run) == {}
  {
    ghost var s := list.Contents();
    var queryQ := k.m.quantize(k.query);
    run := [];
    var i: nat := NextUnvisited(list);
    while i < list.count
      invariant list.Valid() && visited.Valid() && i <= list.count
      invariant i < list.count ==> !list.items[i].visited
      invariant forall j :: 0 <= j < i ==> list.items[j].visited
      invariant i == list.count ==> UnvisitedAfter(k, s, run) == {}
      invariant ValidRun(k, s, least, run) && list.Contents() == RunList(k, s, run)
      invariant visited.Rows() == Remembered(k, s, run) && visited.slots.Length == MemorySlots(k)
      invariant visited.Rows() <= RunLeast(k, s, least, run).Keys
      decreases FreshAfter(k, s, least, run), UnvisitedAfter(k, s, run)
    {
      hide ValidRun, RunList, RunLeast, Remembered, FreshAfter, UnvisitedAfter;
      run := OneTurn(list, visited, k, queryQ, i, s, least, run);
      i := NextUnvisited(list);
    }
  }

  datatype Outcome = Found(hits: seq<Bid>) | Unreadable

  /** The candidate list a search starts from: the entry point, confirmed. */
  ghost function Seed(t: Tables, m: Metric, query: Vec): (s: seq<Candidate>)
    requires t.medoid.Some? && t.medoid.value in t.vectors
  {
    [Candidate(t.medoid.value, m.exact(query, t.vectors[t.medoid.value]), false, true)]
  }

  ghost function SeedLeast(t: Tables, m: Metric, query: Vec): (l: Least)
    requires t.medoid.Some? && t.medoid.value in t.vectors
  {
    map[t.medoid.value := m.exact(query, t.vectors[t.medoid.value])]
  }

  /** `listSize` and `k` as passed by the caller, `configured` the column's setting. */
  method Search(t: Tables, m: Metric, home: int -> nat, query: Vec, k: nat, listSize: int, configured: nat)
    returns (out: Outcome, ghost run: seq<Step>)
    requires 1 <= configured
    ensures out.Unreadable? <==> t.medoid.Some? && t.medoid.value !in t.vectors
    ensures t.medoid.None? ==> out == Found([])
    ensures out.Found? && t.medoid.Some? ==>
              var task := Task(t, m, query, Width(k, listSize, configured));
              Completes(task, run) && out.hits == Take(ConfirmedOnly(Final(task, run)), k)
  {
    run := [];
    if t.medoid.None? {
      return Found([]), [];
    }
    var medoid := t.medoid.value;
    if medoid !in t.vectors {
      return Unreadable, [];
    }
    var d := m.exact(query, t.vectors[medoid]);
    var list := new CandidateList(Width(k, listSize, configured));
    var visited := new VisitedSet(4 * list.capacity, home);
    SeedStep(list.capacity, t, m, query, medoid);
    var _ := list.Insert(medoid, d);
    list.items[0] := list.items[0].(confirmed := true);
    assert list.Contents() == Seed(t, m, query);
    run := Run(list, visited, Task(t, m, query, list.capacity), SeedLeast(t, m, query));
    var hits := Collect(list, k);
    out := Found(hits);
  }

  /** The working width of a search: the requested or configured size, never below `k`. */
  function Width(k: nat, listSize: int, configured: nat): (w: nat)
    requires 1 <= configured
    ensures w >= 1 && w >= k
    ensures listSize <= 0 && configured >= k ==> w == configured
    ensures listSize > 0 && listSize >= k ==> w == listSize
    ensures w == k || w == configured || w == listSize
  {
    var size := if listSize <= 0 then configured else listSize;
    if size < k then k else size
  }

  lemma SeedStep(cap: nat, t: Tables, m: Metric, query: Vec, medoid: int)
    requires 1 <= cap && t.medoid == Some(medoid) && medoid in t.vectors
    ensures var d := m.exact(query, t.vectors[medoid]);
            && Offer([], cap, medoid, d) == [Candidate(medoid, d, false, false)]
            && BeamInv([Candidate(medoid, d, false, true)], cap, map[medoid := d], t, m, query, {})
  {
    var d := m.exact(query, t.vectors[medoid]);
    var c := Candidate(medoid, d, false, true);
    assert multiset([c]) == multiset{c};
    assert Holds(multiset{c}, medoid);
  }

  method Collect(list: CandidateList, k: nat) returns (hits: seq<Bid>)
    requires list.Valid()
    ensures hits == Take(ConfirmedOnly(list.Contents()), k)
  {
    hits := [];
    var i := 0;
    ghost var s := list.Contents();
    while i < list.count && |hits| < k
      invariant i <= list.count && |hits| <= k
      invariant hits == ConfirmedOnly(s[..i])
    {
      assert s[..i + 1][..i] == s[..i];
      if list.items[i].confirmed {
        hits := hits + [Bid(list.items[i].rowid, list.items[i].distance)];
      }
      i := i + 1;
    }
    ConfirmedOnlyPrefix(s, i);
    assert s[..|s|] == s;
  }

  lemma {:induction false} ConfirmedOnlyPrefix(s: seq<Candidate>, i: nat)
    requires i <= |s|
    ensures ConfirmedOnly(s[..i]) <= ConfirmedOnly(s)
  {
    if i < |s| {
      var n := |s| - 1;
      assert s[..n][..i] == s[..i];
      ConfirmedOnlyPrefix(s[..n], i);
    } else {
      assert s[..i] == s;
    }
  }

  // ---- what the caller gets -----------------------------------------------------------

  lemma {:induction false} ConfirmedOnlyMembers(s: seq<Candidate>)
    ensures forall b :: b in ConfirmedOnly(s) ==> exists e :: e in s && e.confirmed && b == Bid(e.rowid, e.distance)
    ensures forall e :: e in s && e.confirmed ==> Bid(e.rowid, e.distance) in ConfirmedOnly(s)
  {
    if s != [] {
      var n := |s| - 1;
      ConfirmedOnlyMembers(s[..n]);
      assert s == s[..n] + [s[n]];
      forall b | b in ConfirmedOnly(s)
        ensures exists e :: e in s && e.confirmed && b == Bid(e.rowid, e.distance)
      {
        if b in ConfirmedOnly(s[..n]) {
          var e :| e in s[..n] && e.confirmed && b == Bid(e.rowid, e.distance);
          assert e in s;
        } else {
          assert s[n] in s;
        }
      }
    }
  }

  lemma LastIsNew(s: seq<Candidate>)
    requires s != [] && Distinct(multiset(s))
    ensures Distinct(multiset(s[..|s| - 1]))
    ensures forall e :: e in s[..|s| - 1] ==> e.rowid != s[|s| - 1].rowid
  {
    var n := |s| - 1;
    assert s == s[..n] + [s[n]];
    assert multiset(s) == multiset(s[..n]) + multiset{s[n]};
    assert forall e :: e in multiset(s[..n]) ==> e in multiset(s) && multiset(s[..n])[e] <= multiset(s)[e];
    forall e | e in s[..n]
      ensures e.rowid != s[n].rowid
    {
      assert e in multiset(s[..n]) && e in multiset(s) && s[n] in multiset(s);
      assert e == s[n] ==> multiset(s)[e] >= 2;
    }
  }

  lemma {:induction false} ConfirmedOnlyOrdered(s: seq<Candidate>)
    requires Sorted(s) && Distinct(multiset(s))
    ensures forall i, j :: 0 <= i < j < |ConfirmedOnly(s)| ==>
              ConfirmedOnly(s)[i].distance <= ConfirmedOnly(s)[j].distance
              && ConfirmedOnly(s)[i].rowid != ConfirmedOnly(s)[j].rowid
  {
    if s != [] {
      var n := |s| - 1;
      LastIsNew(s);
      ConfirmedOnlyOrdered(s[..n]);
      ConfirmedOnlyMembers(s[..n]);
      forall b | b in ConfirmedOnly(s[..n])
        ensures b.distance <= s[n].distance && b.rowid != s[n].rowid
      {
        var e :| e in s[..n] && e.confirmed && b == Bid(e.rowid, e.distance);
        assert e.distance <= s[n].distance;
      }
    }
  }

  /** The hits: at most `k`, sorted, one per row, each a row with a stored vector at
      no more than its exact distance, and no listed confirmed row beats them. */
  ghost predicate GoodHits(hits: seq<Bid>, k: nat, s: seq<Candidate>, t: Tables, m: Metric, query: Vec) {
    && |hits| <= k
    && (forall i, j :: 0 <= i < j < |hits| ==> hits[i].distance <= hits[j].distance && hits[i].rowid != hits[j].rowid)
    && (forall b :: b in hits ==> b.rowid in t.vectors && b.distance <= m.exact(query, t.vectors[b.rowid]))
    && (forall e :: e in s && e.confirmed && Bid(e.rowid, e.distance) !in hits ==>
          |hits| == k && forall b :: b in hits ==> b.distance <= e.distance)
  }

  lemma HitsAreStored(s: seq<Candidate>, cap: nat, least: Least, t: Tables, m: Metric, query: Vec, b: Bid)
    requires BeamInv(s, cap, least, t, m, query, {}) && b in ConfirmedOnly(s)
    ensures b.rowid in t.vectors && b.distance <= m.exact(query, t.vectors[b.rowid])
  {
    ConfirmedOnlyMembers(s);
    var e :| e in s && e.confirmed && b == Bid(e.rowid, e.distance);
    assert e in multiset(s);
    assert e.rowid in Confirmed(multiset(s));
  }

  lemma HitsBeatTheRest(s: seq<Candidate>, k: nat, e: Candidate)
    requires Sorted(s) && Distinct(multiset(s))
    requires e in s && e.confirmed && Bid(e.rowid, e.distance) !in Take(ConfirmedOnly(s), k)
    ensures |Take(ConfirmedOnly(s), k)| == k && forall b :: b in Take(ConfirmedOnly(s), k) ==> b.distance <= e.distance
  {
    ConfirmedOnlyMembers(s);
    ConfirmedOnlyOrdered(s);
    var all := ConfirmedOnly(s);
    var j :| 0 <= j < |all| && all[j] == Bid(e.rowid, e.distance);
    assert forall i :: 0 <= i < |Take(all, k)| ==> all[i] in Take(all, k);
    assert forall b :: b in Take(all, k) ==> exists i :: 0 <= i < k && b == all[i];
  }

  lemma HitsAreGood(s: seq<Candidate>, cap: nat, least: Least, t: Tables, m: Metric, query: Vec, k: nat)
    requires BeamInv(s, cap, least, t, m, query, {})
    ensures GoodHits(Take(ConfirmedOnly(s), k), k, s, t, m, query)
  {
    ConfirmedOnlyOrdered(s);
    var hits := Take(ConfirmedOnly(s), k);
    forall b | b in hits
      ensures b.rowid in t.vectors && b.distance <= m.exact(query, t.vectors[b.rowid])
    {
      HitsAreStored(s, cap, least, t, m, query, b);
    }
    forall e | e in s && e.confirmed && Bid(e.rowid, e.distance) !in hits
      ensures |hits| == k && forall b :: b in hits ==> b.distance <= e.distance
    {
      HitsBeatTheRest(s, k, e);
    }
  }

  /** Local optimality: when the search stops, every valid neighbour of every listed
      row either is listed or is no better than every listed row, and then the list
      is full. */
  lemma StopIsLocallyBest(s: seq<Candidate>, cap: nat, least: Least, t: Tables, m: Metric, query: Vec, e: Candidate,
                          r: int)
    requires BeamInv(s, cap, least, t, m, query, {}) && Unvisited(multiset(s)) == {}
    requires e in s && e.rowid in t.nodes && r in Neighbours(t.nodes[e.rowid])
    ensures r in least
    ensures Holds(multiset(s), r) || (|s| == cap && forall f :: f in s ==> f.distance <= least[r])
  {
    assert e in multiset(s);
    assert e.visited by {
      assert !e.visited ==> e.rowid in Unvisited(multiset(s));
    }
    assert e.rowid in Expanded(multiset(s));
    assert forall f :: f in s ==> f in multiset(s);
  }

  /** A completed search: `run` starts from the confirmed entry point and leaves nothing unvisited. */
  ghost predicate Completes(task: Task, run: seq<Step>)
    requires task.t.medoid.Some? && task.t.medoid.value in task.t.vectors && 1 <= task.cap
  {
    var s0, l0 := Seed(task.t, task.m, task.query), SeedLeast(task.t, task.m, task.query);
    ValidRun(task, s0, l0, run) && UnvisitedAfter(task, s0, run) == {}
  }

  /** The list a run ends with. */
  ghost function Final(task: Task, run: seq<Step>): (s: seq<Candidate>)
    requires task.t.medoid.Some? && task.t.medoid.value in task.t.vectors && 1 <= task.cap
    ensures |s| <= task.cap
  {
    RunList(task, Seed(task.t, task.m, task.query), run)
  }

  ghost function FinalLeast(task: Task, run: seq<Step>): (least: Least)
    requires task.t.medoid.Some? && task.t.medoid.value in task.t.vectors && 1 <= task.cap
  {
    RunLeast(task, Seed(task.t, task.m, task.query), SeedLeast(task.t, task.m, task.query), run)
  }

  lemma FinalInvariant(task: Task, run: seq<Step>)
    requires task.t.medoid.Some? && task.t.medoid.value in task.t.vectors && 1 <= task.cap && Completes(task, run)
    ensures BeamInv(Final(task, run), task.cap, FinalLeast(task, run), task.t, task.m, task.query, {})
    ensures Checked(multiset(Final(task, run)), task.t, {}) && Unvisited(multiset(Final(task, run))) == {}
    ensures task.t.medoid.value in FinalLeast(task, run)
  {
    var s0, l0 := Seed(task.t, task.m, task.query), SeedLeast(task.t, task.m, task.query);
    SeedStep(task.cap, task.t, task.m, task.query, task.t.medoid.value);
    RunKeepsInvariant(task, s0, l0, run);
    assert multiset(s0) == multiset{s0[0]};
    RunKeepsChecked(task, s0, l0, run);
  }

  lemma ListedIsConfirmed(task: Task, run: seq<Step>, e: Candidate)
    requires task.t.medoid.Some? && task.t.medoid.value in task.t.vectors && 1 <= task.cap && Completes(task, run)
    requires e in Final(task, run) && e.rowid in task.t.nodes && e.rowid in task.t.vectors
    ensures e.confirmed
  {
    FinalInvariant(task, run);
    var s := Final(task, run);
    assert e in multiset(s);
    assert !e.visited ==> e.rowid in Unvisited(multiset(s));
  }

  /** Every completed search: good hits, every listed row that can be read confirmed, and a
      locally best list containing the best of everything it looked at. */
  lemma SearchIsCorrect(k: nat, task: Task, run: seq<Step>)
    requires task.t.medoid.Some? && task.t.medoid.value in task.t.vectors && 1 <= task.cap && Completes(task, run)
    ensures var s, least := Final(task, run), FinalLeast(task, run);
            && GoodHits(Take(ConfirmedOnly(s), k), k, s, task.t, task.m, task.query)
            && TopOf(s, task.cap, least)
            && task.t.medoid.value in least
            && (forall e :: e in s && e.rowid in task.t.nodes && e.rowid in task.t.vectors ==> e.confirmed)
            && (forall e, r :: e in s && e.rowid in task.t.nodes && r in Neighbours(task.t.nodes[e.rowid]) ==>
                  r in least && (Holds(multiset(s), r) || forall f :: f in s ==> f.distance <= least[r]))
  {
    FinalInvariant(task, run);
    var s, least := Final(task, run), FinalLeast(task, run);
    HitsAreGood(s, task.cap, least, task.t, task.m, task.query, k);
    forall e | e in s && e.rowid in task.t.nodes && e.rowid in task.t.vectors
      ensures e.confirmed
    {
      ListedIsConfirmed(task, run, e);
    }
    forall e, r | e in s && e.rowid in task.t.nodes && r in Neighbours(task.t.nodes[e.rowid])
      ensures r in least && (Holds(multiset(s), r) || forall f :: f in s ==> f.distance <= least[r])
    {
      StopIsLocallyBest(s, task.cap, least, task.t, task.m, task.query, e, r);
    }
  }

  // ---- graphs without stale edges -------------------------------------------------------

  /** Every row a search may look at has a node and a vector. */
  ghost predicate Intact(t: Tables) {
    forall r :: Offerable(t, r) ==> r in t.nodes && r in t.vectors
  }

  lemma {:induction false} AllConfirmed(s: seq<Candidate>)
    requires forall e :: e in s ==> e.confirmed
    ensures |ConfirmedOnly(s)| == |s|
    ensures forall i :: 0 <= i < |s| ==> ConfirmedOnly(s)[i] == Bid(s[i].rowid, s[i].distance)
  {
    if s != [] {
      AllConfirmed(s[..|s| - 1]);
    }
  }

  lemma OfferedNotEmpty(s: seq<Candidate>, cap: nat, least: Least, q: int)
    requires 1 <= cap && TopOf(s, cap, least) && q in least
    ensures s != []
  {
    if |s| < cap {
      var e: Candidate :| e in multiset(s) && e.rowid == q;
      assert e in s;
    }
  }

  lemma ListedIsIntact(task: Task, run: seq<Step>, e: Candidate)
    requires task.t.medoid.Some? && task.t.medoid.value in task.t.vectors && 1 <= task.cap && Completes(task, run)
    requires Intact(task.t) && e in Final(task, run)
    ensures e.rowid in task.t.nodes && e.rowid in task.t.vectors && e.confirmed
  {
    FinalInvariant(task, run);
    assert e in multiset(Final(task, run));
    assert Offerable(task.t, e.rowid);
    ListedIsConfirmed(task, run, e);
  }

  /** Where no edge is stale the hits are the first `k` of the final list, which is never empty:
      the nearest of everything the search looked at. */
  lemma IntactHits(k: nat, task: Task, run: seq<Step>)
    requires task.t.medoid.Some? && task.t.medoid.value in task.t.vectors && 1 <= task.cap && Completes(task, run)
    requires Intact(task.t)
    ensures var s := Final(task, run);
            var hits := Take(ConfirmedOnly(s), k);
            && s != [] && |hits| == (if |s| <= k then |s| else k)
            && forall i :: 0 <= i < |hits| ==> hits[i] == Bid(s[i].rowid, s[i].distance)
  {
    FinalInvariant(task, run);
    var s := Final(task, run);
    forall e | e in s
      ensures e.confirmed
    {
      ListedIsIntact(task, run, e);
    }
    AllConfirmed(s);
    OfferedNotEmpty(s, task.cap, FinalLeast(task, run), task.t.medoid.value);
  }

  /** A walk along stored edges from the entry point. */
  ghost predicate IsWalk(t: Tables, walk: seq<int>) {
    && walk != [] && t.medoid == Some(walk[0])
    && forall i :: 0 <= i < |walk| - 1 ==> walk[i] in t.nodes && walk[i + 1] in Neighbours(t.nodes[walk[i]])
  }

  lemma {:induction false} WalkIsListed(task: Task, run: seq<Step>, walk: seq<int>)
    requires task.t.medoid.Some? && task.t.medoid.value in task.t.vectors && 1 <= task.cap && Completes(task, run)
    requires |Final(task, run)| < task.cap && IsWalk(task.t, walk)
    ensures Holds(multiset(Final(task, run)), walk[|walk| - 1])
    decreases |walk|
  {
    FinalInvariant(task, run);
    var s, least := Final(task, run), FinalLeast(task, run);
    if |walk| > 1 {
      var n := |walk| - 1;
      assert IsWalk(task.t, walk[..n]);
      WalkIsListed(task, run, walk[..n]);
      var e: Candidate :| e in multiset(s) && e.rowid == walk[n - 1];
      assert walk[n] in Neighbours(task.t.nodes[walk[n - 1]]);
      StopIsLocallyBest(s, task.cap, least, task.t, task.m, task.query, e, walk[n]);
    }
  }

  /** Completeness: a search of an intact graph that answers fewer rows than asked has
      answered every row that can be reached from the entry point. */
  lemma ShortAnswerIsComplete(k: nat, task: Task, run: seq<Step>, walk: seq<int>)
    requires task.t.medoid.Some? && task.t.medoid.value in task.t.vectors && 1 <= task.cap && Completes(task, run)
    requires Intact(task.t) && k <= task.cap && IsWalk(task.t, walk)
    requires |Take(ConfirmedOnly(Final(task, run)), k)| < k
    ensures exists b :: b in Take(ConfirmedOnly(Final(task, run)), k) && b.rowid == walk[|walk| - 1]
  {
    var s := Final(task, run);
    IntactHits(k, task, run);
    WalkIsListed(task, run, walk);
    var e: Candidate :| e in multiset(s) && e.rowid == walk[|walk| - 1];
    var i :| 0 <= i < |s| && s[i] == e;
    assert Take(ConfirmedOnly(s), k)[i] == Bid(e.rowid, e.distance);
  }

  /** What pruning needs to know about a completed search. */
  lemma HitsAreCandidates(k: nat, task: Task, run: seq<Step>)
    requires task.t.medoid.Some? && task.t.medoid.value in task.t.vectors && 1 <= task.cap && Completes(task, run)
    ensures var hits := Take(ConfirmedOnly(Final(task, run)), k);
            && |hits| <= k
            && (forall i, j :: 0 <= i < j < |hits| ==>
                  hits[i].distance <= hits[j].distance && hits[i].rowid != hits[j].rowid)
            && (forall b :: b in hits ==> b.rowid in task.t.vectors)
  {
    SearchIsCorrect(k, task, run);
  }
}
