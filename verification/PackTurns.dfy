/** What packing decides about each hit, in plain terms: what it costs, what was left when its
    turn came, and which limit was in the way. */
module PackTurns {
  import opened Wrappers
  import opened RecallTypes
  import opened Order
  import opened Pack

  // ---- one decision ---------------------------------------------------------------------------

  /** A usable summary costs the larger of the recorded and the measured count. */
  ghost predicate SummaryCosts(row: CanonicalRow, counter: Counter, n: nat) {
    && row.summaryText.Some? && row.summaryText.value != ""
    && n >= counter(row.summaryText.value) && (row.summaryTokens.Some? ==> n >= row.summaryTokens.value)
    && (n == counter(row.summaryText.value) || row.summaryTokens == Some(n))
  }

  /** The hit is placed as well as `cap` tokens allow: the full text, else the summary, else it is
      dropped whole for `reason`. */
  ghost predicate Fits(h: Hit, row: CanonicalRow, cap: int, reason: DropReason, counter: Counter) {
    if counter(row.text) <= cap then h.placement == Full && h.tokens == counter(row.text)
    else if exists n: nat :: SummaryCosts(row, counter, n) && n <= cap then
      h.placement == Summary && SummaryCosts(row, counter, h.tokens) && h.tokens <= cap
    else h.placement == Dropped(reason) && h.tokens == 0
  }

  lemma PlaceFits(h: Hit, row: CanonicalRow, cap: nat, counter: Counter, reason: DropReason)
    ensures var p := Place(row, cap, counter, reason);
            Fits(h.(placement := p.0, tokens := p.1), row, cap, reason, counter)
  {
    var summary := SummaryCost(row, counter);
    if summary.Some? {
      assert SummaryCosts(row, counter, summary.value);
    }
    assert forall n: nat :: SummaryCosts(row, counter, n) ==> summary == Some(n);
  }

  // ---- inside one pass ----------------------------------------------------------------------------

  lemma {:induction false} PassPrefix(pass: Option<Tier>, hits: seq<Hit>, rows: Rows, counter: Counter, budget: nat,
                                      s: Tally, i: nat)
    requires i <= |hits|
    ensures Pass(pass, hits, rows, counter, budget, s).hits[..i]
              == Pass(pass, hits[..i], rows, counter, budget, s).hits
    ensures i < |hits| ==>
              var before := Pass(pass, hits[..i], rows, counter, budget, s).tally;
              Pass(pass, hits, rows, counter, budget, s).hits[i]
                == PassHit(pass, hits[i], rows, counter, budget, before).hit
  {
    hide PassHit;
    var n := |hits| - 1;
    if i < |hits| {
      PassPrefix(pass, hits[..n], rows, counter, budget, s, i);
      assert hits[..n][..i] == hits[..i];
    } else {
      assert hits[..i] == hits;
    }
  }

  /** Tokens on the pinned hits. */
  ghost function PinnedTokens(hits: seq<Hit>, rows: Rows): (n: nat) {
    if hits == [] then 0 else
      var n := |hits| - 1;
      PinnedTokens(hits[..n], rows) + PinnedOwn(hits[n], rows)
  }

  ghost function PinnedOwn(h: Hit, rows: Rows): nat {
    if h.rowid in rows && rows[h.rowid].pinned then h.tokens else 0
  }

  lemma HitUses(pass: Option<Tier>, h: Hit, rows: Rows, counter: Counter, budget: nat, s: Tally)
    requires CleanHit(h, rows, pass)
    ensures var r := PassHit(pass, h, rows, counter, budget, s);
            && (pass.None? ==> r.tally.used == s.used + PinnedOwn(r.hit, rows) - PinnedOwn(h, rows))
            && (pass.Some? ==>
                  && PinnedOwn(r.hit, rows) == PinnedOwn(h, rows)
                  && r.tally.used == s.used + Own(r.hit, rows, pass.value, false) - Own(h, rows, pass.value, false))
  {
  }

  /** What a pass spends lands on the hits it is for. */
  lemma {:induction false} PassUses(pass: Option<Tier>, hits: seq<Hit>, rows: Rows, counter: Counter, budget: nat,
                                    s: Tally)
    requires Clean(hits, rows, pass)
    ensures var r := Pass(pass, hits, rows, counter, budget, s);
            && (pass.None? ==> r.tally.used == s.used + PinnedTokens(r.hits, rows) - PinnedTokens(hits, rows))
            && (pass.Some? ==>
                  && PinnedTokens(r.hits, rows) == PinnedTokens(hits, rows)
                  && r.tally.used
                       == s.used + Spent(r.hits, rows, pass.value, false) - Spent(hits, rows, pass.value, false))
  {
    hide CleanHit, PassHit, Own, PinnedOwn;
    if hits != [] {
      var n := |hits| - 1;
      PassUses(pass, hits[..n], rows, counter, budget, s);
      var before := Pass(pass, hits[..n], rows, counter, budget, s);
      assert CleanHit(hits[n], rows, pass);
      HitUses(pass, hits[n], rows, counter, budget, before.tally);
    }
  }

  lemma {:induction false} FreshPinned(hits: seq<Hit>, rows: Rows)
    requires Fresh(hits)
    ensures PinnedTokens(hits, rows) == 0
  {
    if hits != [] {
      FreshPinned(hits[..|hits| - 1], rows);
    }
  }

  lemma {:induction false} PrefixSpends(hits: seq<Hit>, rows: Rows, t: Tier, i: nat)
    requires i <= |hits|
    ensures Spent(hits[..i], rows, t, false) <= Spent(hits, rows, t, false)
  {
    if i < |hits| {
      var n := |hits| - 1;
      PrefixSpends(hits[..n], rows, t, i);
      assert hits[..n][..i] == hits[..i];
    } else {
      assert hits[..i] == hits;
    }
  }

  lemma CleanPrefix(hits: seq<Hit>, rows: Rows, pass: Option<Tier>, i: nat)
    requires Clean(hits, rows, pass) && i <= |hits|
    ensures Clean(hits[..i], rows, pass)
  {
    hide CleanHit;
  }

  // ---- from one pass to the end -------------------------------------------------------------------

  /** What a packing is fixed on; the hits are in injection order. */
  datatype Job = Job(shares: TierTokens, sorted: seq<Hit>, rows: Rows, counter: Counter, budget: nat)

  ghost function After(j: Job, k: nat): (r: Packed)
    requires k <= 4
    ensures |r.hits| == |j.sorted|
  {
    Passes(j.shares, j.sorted, j.rows, j.counter, j.budget, k)
  }

  /** A hit that is settled stays as it is. */
  lemma {:induction false} SettledStays(j: Job, k: nat, m: nat, i: nat)
    requires k <= m <= 4 && i < |j.sorted| && After(j, k).hits[i].placement != Unpacked
    ensures After(j, m).hits[i] == After(j, k).hits[i]
    decreases m - k
  {
    hide Pass, SameHit;
    if k < m {
      SettledStays(j, k, m - 1, i);
      var before := After(j, m - 1);
      PassKeeps(Some(TierAt(m - 1)), before.hits, j.rows, j.counter, j.budget,
                Offered(j.shares, TierAt(m - 1), before.tally), i);
    }
  }

  lemma {:induction false} SameSpent(a: seq<Hit>, b: seq<Hit>, rows: Rows, t: Tier)
    requires |a| == |b| && forall i :: 0 <= i < |a| ==> Own(a[i], rows, t, false) == Own(b[i], rows, t, false)
    ensures Spent(a, rows, t, false) == Spent(b, rows, t, false)
  {
    hide Own;
    if a != [] {
      var n := |a| - 1;
      SameSpent(a[..n], b[..n], rows, t);
    }
  }

  lemma {:induction false} SamePinned(a: seq<Hit>, b: seq<Hit>, rows: Rows)
    requires |a| == |b| && forall i :: 0 <= i < |a| ==> PinnedOwn(a[i], rows) == PinnedOwn(b[i], rows)
    ensures PinnedTokens(a, rows) == PinnedTokens(b, rows)
  {
    hide PinnedOwn;
    if a != [] {
      var n := |a| - 1;
      SamePinned(a[..n], b[..n], rows);
    }
  }

  /** Once its pass is over, a hit of a tier counts as it will in the end. */
  lemma TierSettled(j: Job, t: Tier, i: nat)
    requires Fresh(j.sorted) && i < |j.sorted|
    ensures Own(After(j, Rank(t) + 1).hits[i], j.rows, t, false) == Own(After(j, 4).hits[i], j.rows, t, false)
  {
    hide Passes, SameHit;
    var k := Rank(t) + 1;
    PassesWait(j.shares, j.sorted, j.rows, j.counter, j.budget, k);
    SameAtAll(j, k, i);
    SameAtAll(j, 4, i);
    if Owned(After(j, k).hits[i], j.rows, t, false) {
      SettledStays(j, k, 4, i);
    }
  }

  lemma SameAtAll(j: Job, k: nat, i: nat)
    requires k <= 4 && i < |j.sorted|
    ensures After(j, k).hits[i].rowid == j.sorted[i].rowid
  {
    PassesKeep(j.shares, j.sorted, j.rows, j.counter, j.budget, k, i);
  }

  lemma PinnedSettled(j: Job, k: nat, i: nat)
    requires Fresh(j.sorted) && k <= 4 && i < |j.sorted|
    ensures PinnedOwn(After(j, k).hits[i], j.rows) == PinnedOwn(After(j, 4).hits[i], j.rows)
  {
    hide Passes, SameHit;
    PassesWait(j.shares, j.sorted, j.rows, j.counter, j.budget, k);
    SameAtAll(j, k, i);
    SameAtAll(j, 4, i);
    if j.sorted[i].rowid in j.rows && j.rows[j.sorted[i].rowid].pinned {
      SettledStays(j, k, 4, i);
    }
  }

  lemma SpentSettled(j: Job, t: Tier, i: nat)
    requires Fresh(j.sorted) && i <= |j.sorted|
    ensures Spent(After(j, Rank(t) + 1).hits[..i], j.rows, t, false) == Spent(After(j, 4).hits[..i], j.rows, t, false)
  {
    hide Own, Passes;
    var a, b := After(j, Rank(t) + 1).hits[..i], After(j, 4).hits[..i];
    forall x | 0 <= x < i
      ensures Own(a[x], j.rows, t, false) == Own(b[x], j.rows, t, false)
    {
      TierSettled(j, t, x);
    }
    SameSpent(a, b, j.rows, t);
  }

  lemma PinnedTokensSettled(j: Job, k: nat, i: nat)
    requires Fresh(j.sorted) && k <= 4 && i <= |j.sorted|
    ensures PinnedTokens(After(j, k).hits[..i], j.rows) == PinnedTokens(After(j, 4).hits[..i], j.rows)
  {
    hide PinnedOwn, Passes;
    var a, b := After(j, k).hits[..i], After(j, 4).hits[..i];
    forall x | 0 <= x < i
      ensures PinnedOwn(a[x], j.rows) == PinnedOwn(b[x], j.rows)
    {
      PinnedSettled(j, k, x);
    }
    SamePinned(a, b, j.rows);
  }

  // ---- what is left when a hit's turn comes -----------------------------------------------------------

  /** The share rolled over to tier number `k`, given what the hits carry in the end. */
  ghost function Carried(shares: TierTokens, hits: seq<Hit>, rows: Rows, k: nat): (n: int)
    requires k <= 4
  {
    if k == 0 then 0 else
      var offered := shares.Get(TierAt(k - 1)) + Carried(shares, hits, rows, k - 1);
      (if offered > U64_MAX then U64_MAX else offered) - Spent(hits, rows, TierAt(k - 1), false)
  }

  /** What tier `t` can still spend before hit `i`: its share and the rollover, less its earlier hits. */
  ghost function ShareLeft(shares: TierTokens, hits: seq<Hit>, rows: Rows, t: Tier, i: nat): int
    requires i <= |hits|
  {
    var offered := shares.Get(t) + Carried(shares, hits, rows, Rank(t));
    (if offered > U64_MAX then U64_MAX else offered) - Spent(hits[..i], rows, t, false)
  }

  /** What the budget can still take then: all pinned hits, the earlier tiers and the earlier hits
      of this tier come first. */
  ghost function BudgetLeft(budget: nat, hits: seq<Hit>, rows: Rows, t: Tier, i: nat): int
    requires i <= |hits|
  {
    budget - PinnedTokens(hits, rows) - SpentSum(hits, rows, Rank(t)) - Spent(hits[..i], rows, t, false)
  }

  /** Hit `i` of the packed list got what its turn allowed. */
  ghost predicate InTurn(shares: TierTokens, budget: nat, hits: seq<Hit>, rows: Rows, counter: Counter, i: nat)
    requires i < |hits|
  {
    var h := hits[i];
    if h.rowid !in rows then h.placement == Dropped(Unresolved) && h.tokens == 0
    else
      var row := rows[h.rowid];
      if row.pinned then Fits(h, row, budget - PinnedTokens(hits[..i], rows), TotalBudget, counter)
      else
        var share := ShareLeft(shares, hits, rows, row.tier, i);
        var left := BudgetLeft(budget, hits, rows, row.tier, i);
        if share <= left then Fits(h, row, share, TierBudget, counter) else Fits(h, row, left, TotalBudget, counter)
  }

  lemma WholeHits(j: Job, k: nat)
    requires k <= 4
    ensures After(j, k).hits[..|j.sorted|] == After(j, k).hits
  {
  }

  lemma {:induction false} UsedSoFar(j: Job, k: nat)
    requires Fresh(j.sorted) && k <= 4
    ensures After(j, k).tally.used == PinnedTokens(After(j, k).hits, j.rows) + SpentSum(After(j, k).hits, j.rows, k)
    ensures After(j, k).tally.used <= j.budget
  {
    hide Pass, Spent, PinnedTokens, Clean, Fresh, Balanced;
    PassesBalance(j.shares, j.sorted, j.rows, j.counter, j.budget, k);
    BalancedWithin(After(j, k), j.budget);
    if k == 0 {
      FreshIsClean(j.sorted, j.rows);
      FreshPinned(j.sorted, j.rows);
      PassUses(None, j.sorted, j.rows, j.counter, j.budget, Tally(0, NOTHING, 0));
    } else {
      UsedSoFar(j, k - 1);
      TierPassUses(j, k - 1, |j.sorted|);
      WholeHits(j, k - 1);
      WholeHits(j, k);
      SpentSumKept(j.shares, j.sorted, j.rows, j.counter, j.budget, k, k - 1);
    }
  }

  lemma BalancedWithin(r: Packed, budget: nat)
    requires Balanced(r, budget)
    ensures r.tally.used <= budget
  {
  }

  /** The tally of pass `k` in front of hit `i`. */
  ghost function TallyAt(j: Job, k: nat, i: nat): Tally
    requires k < 4 && i <= |j.sorted|
  {
    var before := After(j, k);
    Pass(Some(TierAt(k)), before.hits[..i], j.rows, j.counter, j.budget,
        Offered(j.shares, TierAt(k), before.tally)).tally
  }

  lemma TierPassUses(j: Job, k: nat, i: nat)
    requires Fresh(j.sorted) && k < 4 && i <= |j.sorted|
    ensures var t := TierAt(k);
            var before, after := After(j, k), After(j, k + 1);
            && TallyAt(j, k, i).used == before.tally.used + Spent(after.hits[..i], j.rows, t, false)
            && TallyAt(j, k, i).available + Spent(after.hits[..i], j.rows, t, false)
                 == SatAdd(j.shares.Get(t), before.tally.available)
            && PinnedTokens(after.hits[..i], j.rows) == PinnedTokens(before.hits[..i], j.rows)
            && (i == |j.sorted| ==> TallyAt(j, k, i) == after.tally)
  {
    hide Clean, CleanHit, Fresh, Spent, PinnedTokens, Own, PinnedOwn, Balanced;
    var t := TierAt(k);
    var before := After(j, k);
    var s := Offered(j.shares, t, before.tally);
    PassesBalance(j.shares, j.sorted, j.rows, j.counter, j.budget, k);
    CleanForTier(before.hits, j.rows, t);
    CleanPrefix(before.hits, j.rows, Some(t), i);
    PassPrefix(Some(t), before.hits, j.rows, j.counter, j.budget, s, i);
    PassUses(Some(t), before.hits[..i], j.rows, j.counter, j.budget, s);
    PassSpends(Some(t), before.hits[..i], j.rows, j.counter, j.budget, s, t);
    PassesCount(j.shares, j.sorted, j.rows, j.counter, j.budget, k, t);
    PrefixSpends(before.hits, j.rows, t, i);
    assert before.hits[..|j.sorted|] == before.hits;
  }

  lemma CleanForTier(hits: seq<Hit>, rows: Rows, t: Tier)
    requires Clean(hits, rows, Some(Working))
    ensures Clean(hits, rows, Some(t))
  {
    forall i | 0 <= i < |hits|
      ensures CleanHit(hits[i], rows, Some(t))
    {
      assert CleanHit(hits[i], rows, Some(Working));
    }
  }

  /** The rollover is what the final placements leave of the shares. */
  lemma {:induction false} CarriedIs(j: Job, k: nat)
    requires Fresh(j.sorted) && k <= 4
    ensures After(j, k).tally.available == Carried(j.shares, After(j, 4).hits, j.rows, k)
  {
    hide Spent, Fresh, Pass;
    if k == 0 {
      NothingAvailableYet(j.sorted, j.rows, j.counter, j.budget, Tally(0, NOTHING, 0));
    } else {
      CarriedIs(j, k - 1);
      TierPassUses(j, k - 1, |j.sorted|);
      SpentSettled(j, TierAt(k - 1), |j.sorted|);
      WholeHits(j, k);
      WholeHits(j, 4);
    }
  }

  lemma {:induction false} SumSettled(j: Job, k: nat, m: nat)
    requires Fresh(j.sorted) && m <= k <= 4
    ensures SpentSum(After(j, k).hits, j.rows, m) == SpentSum(After(j, 4).hits, j.rows, m)
    decreases 4 - k
  {
    hide Spent, Fresh, Pass;
    if k < 4 {
      SumSettled(j, k + 1, m);
      SpentSumKept(j.shares, j.sorted, j.rows, j.counter, j.budget, k + 1, m);
    }
  }

  /** Before hit `i` of tier `t`, pass and totals stand where the final placements say. */
  lemma TurnIs(j: Job, t: Tier, i: nat)
    requires Fresh(j.sorted) && i <= |j.sorted|
    ensures var hits := After(j, 4).hits;
            && TallyAt(j, Rank(t), i).available == ShareLeft(j.shares, hits, j.rows, t, i)
            && j.budget - TallyAt(j, Rank(t), i).used == BudgetLeft(j.budget, hits, j.rows, t, i)
  {
    hide Spent, Fresh, Pass, Passes, TallyAt, PinnedTokens, SpentSum;
    var k := Rank(t);
    TierPassUses(j, k, i);
    SpentSettled(j, t, i);
    CarriedIs(j, k);
    UsedSoFar(j, k);
    SumSettled(j, k, k);
    PinnedTokensSettled(j, k, |j.sorted|);
    WholeHits(j, k);
    WholeHits(j, 4);
  }

  // ---- every decision ------------------------------------------------------------------------------------

  lemma PinnedInTurn(j: Job, i: nat)
    requires Fresh(j.sorted) && i < |j.sorted|
    requires j.sorted[i].rowid !in j.rows || j.rows[j.sorted[i].rowid].pinned
    ensures InTurn(j.shares, j.budget, After(j, 4).hits, j.rows, j.counter, i)
  {
    hide Fits, PinnedTokens, Spent, SpentSum, Carried;
    var s := Tally(0, NOTHING, 0);
    PassPrefix(None, j.sorted, j.rows, j.counter, j.budget, s, i);
    SettledStays(j, 0, 4, i);
    var h := j.sorted[i];
    if h.rowid in j.rows {
      var used := Pass(None, j.sorted[..i], j.rows, j.counter, j.budget, s).tally.used;
      PinnedTurn(j, i);
      PlaceFits(h, j.rows[h.rowid], SatSub(j.budget, used), j.counter, TotalBudget);
    }
  }

  lemma PinnedTurn(j: Job, i: nat)
    requires Fresh(j.sorted) && i <= |j.sorted|
    ensures var used := Pass(None, j.sorted[..i], j.rows, j.counter, j.budget, Tally(0, NOTHING, 0)).tally.used;
            used == PinnedTokens(After(j, 4).hits[..i], j.rows) && used <= j.budget
  {
    hide Clean, CleanHit, Balanced, PinnedTokens, Pass;
    var s := Tally(0, NOTHING, 0);
    PinPassBalances(j.sorted[..i], j.rows, j.counter, j.budget);
    BalancedWithin(Pass(None, j.sorted[..i], j.rows, j.counter, j.budget, s), j.budget);
    FreshIsClean(j.sorted[..i], j.rows);
    FreshPinned(j.sorted[..i], j.rows);
    PassUses(None, j.sorted[..i], j.rows, j.counter, j.budget, s);
    PassPrefix(None, j.sorted, j.rows, j.counter, j.budget, s, i);
    PinnedTokensSettled(j, 0, i);
  }

  lemma TierInTurn(j: Job, i: nat)
    requires Fresh(j.sorted) && i < |j.sorted|
    requires j.sorted[i].rowid in j.rows && !j.rows[j.sorted[i].rowid].pinned
    ensures InTurn(j.shares, j.budget, After(j, 4).hits, j.rows, j.counter, i)
  {
    hide Fits, PinnedTokens, Spent, SpentSum, Carried, Passes, Pass, ShareLeft, BudgetLeft, Place, SameHit;
    var row := j.rows[j.sorted[i].rowid];
    var t := row.tier;
    var k := Rank(t);
    var h := After(j, k).hits[i];
    SameAtAll(j, 4, i);
    StillWaiting(j, t, i);
    TurnHit(j, t, i);
    TurnIs(j, t, i);
    var s := TallyAt(j, k, i);
    TurnWithin(j, t, i);
    PlaceFits(h, row, s.available, j.counter, TierBudget);
    PlaceFits(h, row, SatSub(j.budget, s.used), j.counter, TotalBudget);
    SettledStays(j, k + 1, 4, i);
  }

  /** A hit of tier `t` is unplaced until its pass. */
  lemma {:induction false} Unplaced(j: Job, t: Tier, k: nat, i: nat)
    requires Fresh(j.sorted) && i < |j.sorted| && k <= Rank(t)
    requires Owned(j.sorted[i], j.rows, t, false)
    ensures After(j, k).hits[i].placement == Unpacked && After(j, k).hits[i].rowid == j.sorted[i].rowid
  {
    hide Place;
    if k == 0 {
      PassPrefix(None, j.sorted, j.rows, j.counter, j.budget, Tally(0, NOTHING, 0), i);
    } else {
      Unplaced(j, t, k - 1, i);
      var before := After(j, k - 1);
      PassPrefix(Some(TierAt(k - 1)), before.hits, j.rows, j.counter, j.budget,
                 Offered(j.shares, TierAt(k - 1), before.tally), i);
    }
  }

  lemma StillWaiting(j: Job, t: Tier, i: nat)
    requires Fresh(j.sorted) && i < |j.sorted| && Owned(j.sorted[i], j.rows, t, false)
    ensures After(j, Rank(t)).hits[i].placement == Unpacked
    ensures After(j, Rank(t)).hits[i].rowid == j.sorted[i].rowid
  {
    Unplaced(j, t, Rank(t), i);
  }

  lemma TurnHit(j: Job, t: Tier, i: nat)
    requires i < |j.sorted|
    ensures After(j, Rank(t) + 1).hits[i]
              == TierHit(t, After(j, Rank(t)).hits[i], j.rows, j.counter, j.budget, TallyAt(j, Rank(t), i)).hit
  {
    hide TierHit;
    var before := After(j, Rank(t));
    PassPrefix(Some(t), before.hits, j.rows, j.counter, j.budget, Offered(j.shares, t, before.tally), i);
  }

  lemma TurnWithin(j: Job, t: Tier, i: nat)
    requires Fresh(j.sorted) && i <= |j.sorted|
    ensures TallyAt(j, Rank(t), i).used <= j.budget
  {
    hide Clean, CleanHit, Balanced, Fresh, Passes;
    var k := Rank(t);
    var before := After(j, k);
    UsedSoFar(j, k);
    PassesBalance(j.shares, j.sorted, j.rows, j.counter, j.budget, k);
    CleanForTier(before.hits, j.rows, t);
    CleanPrefix(before.hits, j.rows, Some(t), i);
    PassBalances(Some(t), before.hits[..i], j.rows, j.counter, j.budget, Offered(j.shares, t, before.tally));
  }

  /** Packing decides each hit by what it costs and what its turn left: pinned hits in order against
      the budget alone, then each tier in order against its share and the budget, the tighter of the
      two giving the reason for a drop. */
  lemma PackedInTurn(split: Split, budget: nat, hits: seq<Hit>, rows: Rows, counter: Counter, i: nat)
    requires Fresh(hits) && i < |PackAll(split, budget, hits, rows, counter).hits|
    ensures InTurn(Alloc(split, budget), budget, PackAll(split, budget, hits, rows, counter).hits, rows, counter, i)
  {
    hide InTurn, Sort, Passes;
    InjectionOrderIsOrder(rows);
    SortKeepsFresh(hits, InjectionOrder(rows));
    var j := Job(Alloc(split, budget), Sort(hits, InjectionOrder(rows)), rows, counter, budget);
    if j.sorted[i].rowid in rows && !rows[j.sorted[i].rowid].pinned {
      TierInTurn(j, i);
    } else {
      PinnedInTurn(j, i);
    }
  }

  // ---- when everything fits --------------------------------------------------------------------------------

  /** Tokens of the full text, if the hit is pinned (`None`) or belongs unpinned to the given tier. */
  ghost function TextOf(h: Hit, rows: Rows, counter: Counter, t: Option<Tier>): nat {
    if h.rowid in rows
        && (if t.None? then rows[h.rowid].pinned else !rows[h.rowid].pinned && rows[h.rowid].tier == t.value)
    then counter(rows[h.rowid].text) else 0
  }

  ghost function Texts(hits: seq<Hit>, rows: Rows, counter: Counter, t: Option<Tier>): (n: nat) {
    if hits == [] then 0 else
      var n := |hits| - 1;
      Texts(hits[..n], rows, counter, t) + TextOf(hits[n], rows, counter, t)
  }

  ghost function TextSum(hits: seq<Hit>, rows: Rows, counter: Counter, k: nat): (n: nat)
    requires k <= 4
  {
    if k == 0 then 0 else TextSum(hits, rows, counter, k - 1) + Texts(hits, rows, counter, Some(TierAt(k - 1)))
  }

  lemma {:induction false} TextsConcat(a: seq<Hit>, b: seq<Hit>, rows: Rows, counter: Counter, t: Option<Tier>)
    ensures Texts(a + b, rows, counter, t) == Texts(a, rows, counter, t) + Texts(b, rows, counter, t)
  {
    if b == [] {
      assert a + b == a;
    } else {
      TextsConcat(a, b[..|b| - 1], rows, counter, t);
      assert (a + b)[..|a + b| - 1] == a + b[..|b| - 1];
    }
  }

  lemma TextsSplit(s: seq<Hit>, i: nat, rows: Rows, counter: Counter, t: Option<Tier>)
    requires i < |s|
    ensures Texts(s, rows, counter, t)
              == Texts(s[..i], rows, counter, t) + TextOf(s[i], rows, counter, t) + Texts(s[i + 1..], rows, counter, t)
    ensures Texts(s[..i] + s[i + 1..], rows, counter, t)
              == Texts(s[..i], rows, counter, t) + Texts(s[i + 1..], rows, counter, t)
  {
    TextsConcat(s[..i], s[i + 1..], rows, counter, t);
    TextsConcat(s[..i], [s[i]], rows, counter, t);
    TextsConcat(s[..i] + [s[i]], s[i + 1..], rows, counter, t);
    assert s == s[..i] + [s[i]] + s[i + 1..];
    assert [s[i]][..0] == [];
  }

  lemma {:induction false} TextsForgetOrder(a: seq<Hit>, b: seq<Hit>, rows: Rows, counter: Counter, t: Option<Tier>)
    requires multiset(a) == multiset(b)
    ensures Texts(a, rows, counter, t) == Texts(b, rows, counter, t)
    decreases |a|
  {
    hide Texts, TextOf;
    BagLength(a, b);
    if a == [] {
      assert b == [];
    } else {
      var n := |a| - 1;
      assert a[n] in multiset(b);
      var k :| 0 <= k < |b| && b[k] == a[n];
      RemoveAt(a, n);
      RemoveAt(b, k);
      TextsForgetOrder(a[..n] + a[n + 1..], b[..k] + b[k + 1..], rows, counter, t);
      TextsSplit(a, n, rows, counter, t);
      TextsSplit(b, k, rows, counter, t);
    }
  }

  lemma {:induction false} SameTexts(a: seq<Hit>, b: seq<Hit>, rows: Rows, counter: Counter, t: Option<Tier>)
    requires |a| == |b| && forall i :: 0 <= i < |a| ==> a[i].rowid == b[i].rowid
    ensures Texts(a, rows, counter, t) == Texts(b, rows, counter, t)
  {
    if a != [] {
      var n := |a| - 1;
      SameTexts(a[..n], b[..n], rows, counter, t);
    }
  }

  /** Texts of the packed list are those of the input. */
  lemma PackedTexts(split: Split, budget: nat, hits: seq<Hit>, rows: Rows, counter: Counter, t: Option<Tier>)
    ensures Texts(PackAll(split, budget, hits, rows, counter).hits, rows, counter, t) == Texts(hits, rows, counter, t)
  {
    hide Texts, PackAll, Sort;
    InjectionOrderIsOrder(rows);
    var sorted := Sort(hits, InjectionOrder(rows));
    SortSorts(hits, InjectionOrder(rows));
    PackSame(split, budget, hits, rows, counter);
    SameTexts(PackAll(split, budget, hits, rows, counter).hits, sorted, rows, counter, t);
    TextsForgetOrder(sorted, hits, rows, counter, t);
  }

  lemma FitsCheaply(h: Hit, row: CanonicalRow, cap: int, reason: DropReason, counter: Counter)
    requires Fits(h, row, cap, reason, counter)
    ensures h.tokens <= counter(row.text)
  {
  }

  lemma InTurnCheaply(shares: TierTokens, budget: nat, hits: seq<Hit>, rows: Rows, counter: Counter, i: nat)
    requires i < |hits| && InTurn(shares, budget, hits, rows, counter, i)
    ensures hits[i].rowid in rows ==> hits[i].tokens <= counter(rows[hits[i].rowid].text)
    ensures hits[i].rowid !in rows ==> hits[i].tokens == 0
  {
    hide Fits, PinnedTokens, Spent, SpentSum, Carried;
    if hits[i].rowid in rows {
      var row := rows[hits[i].rowid];
      if row.pinned {
        FitsCheaply(hits[i], row, budget - PinnedTokens(hits[..i], rows), TotalBudget, counter);
      } else {
        var share, left := ShareLeft(shares, hits, rows, row.tier, i), BudgetLeft(budget, hits, rows, row.tier, i);
        if share <= left {
          FitsCheaply(hits[i], row, share, TierBudget, counter);
        } else {
          FitsCheaply(hits[i], row, left, TotalBudget, counter);
        }
      }
    }
  }

  /** No hit costs more than its full text. */
  ghost predicate Cheap(hits: seq<Hit>, rows: Rows, counter: Counter) {
    forall i :: 0 <= i < |hits| ==> hits[i].tokens <= if hits[i].rowid in rows then counter(rows[hits[i].rowid].text)
        else 0
  }

  lemma {:induction false} CheapSums(hits: seq<Hit>, rows: Rows, counter: Counter, t: Tier)
    requires Cheap(hits, rows, counter)
    ensures Spent(hits, rows, t, false) <= Texts(hits, rows, counter, Some(t))
    ensures PinnedTokens(hits, rows) <= Texts(hits, rows, counter, None)
  {
    if hits != [] {
      var n := |hits| - 1;
      assert hits[n].tokens <= if hits[n].rowid in rows then counter(rows[hits[n].rowid].text) else 0;
      CheapSums(hits[..n], rows, counter, t);
    }
  }

  lemma {:induction false} CheapSpentSum(hits: seq<Hit>, rows: Rows, counter: Counter, k: nat)
    requires Cheap(hits, rows, counter) && k <= 4
    ensures SpentSum(hits, rows, k) <= TextSum(hits, rows, counter, k)
  {
    if k > 0 {
      CheapSpentSum(hits, rows, counter, k - 1);
      CheapSums(hits, rows, counter, TierAt(k - 1));
    }
  }

  lemma PrefixTexts(hits: seq<Hit>, rows: Rows, counter: Counter, t: Option<Tier>, i: nat)
    requires i < |hits|
    ensures Texts(hits[..i], rows, counter, t) + TextOf(hits[i], rows, counter, t) <= Texts(hits, rows, counter, t)
  {
    TextsSplit(hits, i, rows, counter, t);
  }

  lemma {:induction false} TextSumGrows(hits: seq<Hit>, rows: Rows, counter: Counter, k: nat, m: nat)
    requires k <= m <= 4
    ensures TextSum(hits, rows, counter, k) <= TextSum(hits, rows, counter, m)
  {
    if k < m {
      TextSumGrows(hits, rows, counter, k, m - 1);
    }
  }

  lemma {:induction false} ShareSumGrows(shares: TierTokens, k: nat, m: nat)
    requires k <= m <= 4
    ensures ShareSum(shares, k) <= ShareSum(shares, m)
  {
    if k < m {
      ShareSumGrows(shares, k, m - 1);
    }
  }

  /** As long as no addition overflows, the rollover is the shares offered so far less what was spent. */
  lemma {:induction false} CarriedIsRest(shares: TierTokens, hits: seq<Hit>, rows: Rows, k: nat)
    requires k <= 4 && ShareSum(shares, 4) <= U64_MAX
    ensures Carried(shares, hits, rows, k) == ShareSum(shares, k) - SpentSum(hits, rows, k)
  {
    if k > 0 {
      CarriedIsRest(shares, hits, rows, k - 1);
      ShareSumGrows(shares, k, 4);
    }
  }

  lemma FitsWhole(h: Hit, row: CanonicalRow, cap: int, reason: DropReason, counter: Counter)
    requires Fits(h, row, cap, reason, counter) && counter(row.text) <= cap
    ensures h.placement == Full && h.tokens == counter(row.text)
  {
  }

  lemma CheapPrefix(hits: seq<Hit>, rows: Rows, counter: Counter, i: nat)
    requires Cheap(hits, rows, counter) && i <= |hits|
    ensures Cheap(hits[..i], rows, counter)
  {
  }

  lemma RoomForTier(shares: TierTokens, budget: nat, hits: seq<Hit>, rows: Rows, counter: Counter, t: Tier, i: nat)
    requires Cheap(hits, rows, counter) && i < |hits| && ShareSum(shares, 4) <= U64_MAX
    requires Texts(hits, rows, counter, None) + TextSum(hits, rows, counter, 4) <= budget
    requires TextSum(hits, rows, counter, Rank(t) + 1) <= ShareSum(shares, Rank(t) + 1)
    ensures TextOf(hits[i], rows, counter, Some(t)) <= ShareLeft(shares, hits, rows, t, i)
    ensures TextOf(hits[i], rows, counter, Some(t)) <= BudgetLeft(budget, hits, rows, t, i)
  {
    hide Texts, Spent, PinnedTokens, Cheap, TextOf, Carried;
    var k := Rank(t);
    CheapSums(hits, rows, counter, t);
    CheapSpentSum(hits, rows, counter, k);
    PrefixTexts(hits, rows, counter, Some(t), i);
    CheapPrefix(hits, rows, counter, i);
    CheapSums(hits[..i], rows, counter, t);
    CarriedIsRest(shares, hits, rows, k);
    ShareSumGrows(shares, k + 1, 4);
    TextSumGrows(hits, rows, counter, k + 1, 4);
    assert TextSum(hits, rows, counter, k + 1) == TextSum(hits, rows, counter, k) + Texts(hits, rows, counter, Some(t));
    assert ShareSum(shares, k + 1) == ShareSum(shares, k) + shares.Get(t);
  }

  lemma RoomForPinned(budget: nat, hits: seq<Hit>, rows: Rows, counter: Counter, i: nat)
    requires Cheap(hits, rows, counter) && i < |hits| && Texts(hits, rows, counter, None) <= budget
    ensures TextOf(hits[i], rows, counter, None) <= budget - PinnedTokens(hits[..i], rows)
  {
    hide Texts, Spent, PinnedTokens, Cheap, TextOf;
    PrefixTexts(hits, rows, counter, None, i);
    CheapPrefix(hits, rows, counter, i);
    CheapSums(hits[..i], rows, counter, Working);
  }

  /** When all texts together fit the budget, and through every tier the unpinned texts fit the
      shares offered so far, every hit with a row is placed in full. */
  lemma EverythingFits(split: Split, budget: nat, hits: seq<Hit>, rows: Rows, counter: Counter, i: nat)
    requires Fresh(hits) && i < |PackAll(split, budget, hits, rows, counter).hits|
    requires ShareSum(Alloc(split, budget), 4) <= U64_MAX
    requires Texts(hits, rows, counter, None) + TextSum(hits, rows, counter, 4) <= budget
    requires forall m :: 1 <= m <= 4 ==> TextSum(hits, rows, counter, m) <= ShareSum(Alloc(split, budget), m)
    ensures var h := PackAll(split, budget, hits, rows, counter).hits[i];
            h.rowid in rows ==> h.placement == Full && h.tokens == counter(rows[h.rowid].text)
  {
    hide PackAll, Texts, Fits, PinnedTokens, ShareLeft, BudgetLeft, Fresh, Alloc;
    var r := PackAll(split, budget, hits, rows, counter).hits;
    var shares := Alloc(split, budget);
    AllCheap(split, budget, hits, rows, counter);
    PackedTexts(split, budget, hits, rows, counter, None);
    PackedInTurn(split, budget, hits, rows, counter, i);
    if r[i].rowid in rows {
      var row := rows[r[i].rowid];
      if row.pinned {
        RoomForPinned(budget, r, rows, counter, i);
        FitsWhole(r[i], row, budget - PinnedTokens(r[..i], rows), TotalBudget, counter);
      } else {
        PackedTextSum(split, budget, hits, rows, counter, 4);
        PackedTextSum(split, budget, hits, rows, counter, Rank(row.tier) + 1);
        RoomForTier(shares, budget, r, rows, counter, row.tier, i);
        var share, left := ShareLeft(shares, r, rows, row.tier, i), BudgetLeft(budget, r, rows, row.tier, i);
        FitsWhole(r[i], row, if share <= left then share else left, if share <= left then TierBudget else TotalBudget,
                  counter);
      }
    }
  }

  lemma AllCheap(split: Split, budget: nat, hits: seq<Hit>, rows: Rows, counter: Counter)
    requires Fresh(hits)
    ensures Cheap(PackAll(split, budget, hits, rows, counter).hits, rows, counter)
  {
    hide PackAll, InTurn, Fresh, Alloc;
    var r := PackAll(split, budget, hits, rows, counter).hits;
    forall i | 0 <= i < |r|
      ensures r[i].tokens <= if r[i].rowid in rows then counter(rows[r[i].rowid].text) else 0
    {
      PackedInTurn(split, budget, hits, rows, counter, i);
      InTurnCheaply(Alloc(split, budget), budget, r, rows, counter, i);
    }
  }

  lemma {:induction false} PackedTextSum(split: Split, budget: nat, hits: seq<Hit>, rows: Rows, counter: Counter,
                                         k: nat)
    requires k <= 4
    ensures TextSum(PackAll(split, budget, hits, rows, counter).hits, rows, counter, k)
              == TextSum(hits, rows, counter, k)
  {
    hide PackAll, Texts;
    if k > 0 {
      PackedTextSum(split, budget, hits, rows, counter, k - 1);
      PackedTexts(split, budget, hits, rows, counter, Some(TierAt(k - 1)));
    }
  }

  /** The tiers spend in their declared order. */
  lemma TiersInOrder(hits: seq<Hit>, rows: Rows)
    ensures Rank(Working) == 0 && Rank(Episodic) == 1 && Rank(Semantic) == 2 && Rank(Procedural) == 3
    ensures SpentSum(hits, rows, 3)
              == Spent(hits, rows, Working, false) + Spent(hits, rows, Episodic, false)
                  + Spent(hits, rows, Semantic, false)
  {
    assert SpentSum(hits, rows, 2) == SpentSum(hits, rows, 1) + Spent(hits, rows, Episodic, false);
  }

  // ---- order and shares ----------------------------------------------------------------------------------------

  /** Pinned hits come first, then higher scores, then smaller public ids. */
  lemma PackedInOrder(split: Split, budget: nat, hits: seq<Hit>, rows: Rows, counter: Counter, i: nat, j: nat)
    requires i < j < |PackAll(split, budget, hits, rows, counter).hits|
    ensures var r := PackAll(split, budget, hits, rows, counter).hits;
            var first := r[i].rowid in rows && rows[r[i].rowid].pinned;
            var second := r[j].rowid in rows && rows[r[j].rowid].pinned;
            && (second ==> first)
            && (first == second ==>
                  r[i].score > r[j].score || (r[i].score == r[j].score && LexLe(r[i].publicId, r[j].publicId)))
  {
    hide PackAll, Sort;
    var le := InjectionOrder(rows);
    InjectionOrderIsOrder(rows);
    SortSorts(hits, le);
    PackSame(split, budget, hits, rows, counter);
    assert le(Sort(hits, le)[i], Sort(hits, le)[j]);
  }

  /** Each tier's share is within half a token of its fraction of the budget, as long as 64 bits
      can hold it. */
  lemma SharesAreNear(split: Split, budget: nat, t: Tier)
    ensures var fraction := match t
                            case Working => split.working
                            case Episodic => split.episodic
                            case Semantic => split.semantic
                            case Procedural => split.procedural;
            var exact, share := budget as real * fraction, Alloc(split, budget).Get(t) as real;
            0.0 <= exact <= U64_MAX as real ==> share - 0.5 <= exact < share + 0.5
  {
  }
}
