/** Token packing: pinned rows first, then tier shares with rollover, every placement
    under a hard ceiling. */
module Pack {
  import opened Wrappers
  import opened RecallTypes
  import opened Order

  const U64_MAX: nat := 0xFFFF_FFFF_FFFF_FFFF

  datatype Split = Split(working: real, episodic: real, semantic: real, procedural: real)

  datatype TierTokens = TierTokens(working: nat, episodic: nat, semantic: nat, procedural: nat) {
    function Get(t: Tier): nat {
      match t
      case Working => working
      case Episodic => episodic
      case Semantic => semantic
      case Procedural => procedural
    }

    function Add(t: Tier, n: nat): TierTokens {
      match t
      case Working => this.(working := working + n)
      case Episodic => this.(episodic := episodic + n)
      case Semantic => this.(semantic := semantic + n)
      case Procedural => this.(procedural := procedural + n)
    }

    function Total(): nat {
      working + episodic + semantic + procedural
    }
  }

  const NOTHING := TierTokens(0, 0, 0, 0)

  /** The order in which tiers spend their shares. */
  function Rank(t: Tier): (k: nat)
    ensures k < 4 && TierAt(k) == t
  {
    match t
    case Working => 0
    case Episodic => 1
    case Semantic => 2
    case Procedural => 3
  }

  function TierAt(k: nat): Tier
    requires k < 4
  {
    if k == 0 then Working else if k == 1 then Episodic else if k == 2 then Semantic else Procedural
  }

  /** Rounded half away from zero, then cast to u64 (saturating at both ends). */
  function RoundU64(x: real): (n: nat)
    ensures n <= U64_MAX
  {
    var r := (x + 0.5).Floor;
    if r <= 0 then 0 else if r > U64_MAX then U64_MAX else r
  }

  function Times(b: real, f: real): real {
    b * f
  }

  function Alloc(split: Split, budget: nat): TierTokens {
    TierTokens(RoundU64(Times(budget as real, split.working)), RoundU64(Times(budget as real, split.episodic)),
               RoundU64(Times(budget as real, split.semantic)), RoundU64(Times(budget as real, split.procedural)))
  }

  function SatAdd(a: nat, b: nat): (s: nat)
    ensures s <= a + b
  {
    if a + b > U64_MAX then U64_MAX else a + b
  }

  function SatSub(a: nat, b: nat): (d: nat)
    ensures b <= a ==> d == a - b
  {
    if b <= a then a - b else 0
  }

  // ---- one hit --------------------------------------------------------------------------

  type Counter = string -> nat

  function SummaryCost(row: CanonicalRow, counter: Counter): Option<nat> {
    if row.summaryText.None? || row.summaryText.value == "" then None else
      var measured := counter(row.summaryText.value);
      var recorded := if row.summaryTokens.Some? && row.summaryTokens.value > 0 then row.summaryTokens.value else 0;
      Some(if recorded > measured then recorded else measured)
  }

  function Place(row: CanonicalRow, cap: nat, counter: Counter, reason: DropReason): (p: (Placement, nat))
    ensures p.1 <= cap && p.0 != Unpacked
  {
    var full := counter(row.text);
    if full <= cap then (Full, full)
    else
      var summary := SummaryCost(row, counter);
      if summary.Some? && summary.value <= cap then (Summary, summary.value) else (Dropped(reason), 0)
  }

  /** Running totals while hits are placed; `available` is the open tier's share. */
  datatype Tally = Tally(used: nat, tiers: TierTokens, available: nat)

  datatype Placed = Placed(hit: Hit, tally: Tally)

  function PinHit(h: Hit, rows: Rows, counter: Counter, budget: nat, s: Tally): Placed {
    if h.rowid !in rows then Placed(h.(placement := Dropped(Unresolved)), s)
    else
      var row := rows[h.rowid];
      if !row.pinned then Placed(h, s)
      else
        var p := Place(row, SatSub(budget, s.used), counter, TotalBudget);
        Placed(h.(placement := p.0, tokens := p.1), s.(used := s.used + p.1, tiers := s.tiers.Add(row.tier, p.1)))
  }

  function TierHit(t: Tier, h: Hit, rows: Rows, counter: Counter, budget: nat, s: Tally): Placed {
    if h.placement != Unpacked then Placed(h, s)
    else if h.rowid !in rows then Placed(h.(placement := Dropped(Unresolved)), s)
    else
      var row := rows[h.rowid];
      if row.tier != t then Placed(h, s)
      else
        var byTotal := SatSub(budget, s.used);
        var p := if s.available <= byTotal then Place(row, s.available, counter, TierBudget)
                 else Place(row, byTotal, counter, TotalBudget);
        Placed(h.(placement := p.0, tokens := p.1),
               Tally(s.used + p.1, s.tiers.Add(row.tier, p.1), SatSub(s.available, p.1)))
  }

  // ---- passes -----------------------------------------------------------------------------

  /** `None` is the pinned pass, `Some(t)` the pass of tier `t`. */
  function PassHit(pass: Option<Tier>, h: Hit, rows: Rows, counter: Counter, budget: nat, s: Tally): Placed {
    if pass.None? then PinHit(h, rows, counter, budget, s) else TierHit(pass.value, h, rows, counter, budget, s)
  }

  datatype Packed = Packed(hits: seq<Hit>, tally: Tally)

  /** One pass over the hits, front to back. */
  function Pass(pass: Option<Tier>, hits: seq<Hit>, rows: Rows, counter: Counter, budget: nat, s: Tally): (r: Packed)
    ensures |r.hits| == |hits|
  {
    if hits == [] then Packed([], s) else
      var n := |hits| - 1;
      var before := Pass(pass, hits[..n], rows, counter, budget, s);
      var p := PassHit(pass, hits[n], rows, counter, budget, before.tally);
      Packed(before.hits + [p.hit], p.tally)
  }

  function Offered(shares: TierTokens, t: Tier, s: Tally): Tally {
    s.(available := SatAdd(shares.Get(t), s.available))
  }

  function TierPass(shares: TierTokens, before: Packed, rows: Rows, counter: Counter, budget: nat, t: Tier): (r: Packed)
    ensures |r.hits| == |before.hits|
  {
    Pass(Some(t), before.hits, rows, counter, budget, Offered(shares, t, before.tally))
  }

  /** The pinned pass, then the first `k` tiers, each offered its share plus what the
      previous one left. */
  function Passes(shares: TierTokens, hits: seq<Hit>, rows: Rows, counter: Counter, budget: nat, k: nat): (r: Packed)
    requires k <= 4
    ensures |r.hits| == |hits|
  {
    if k == 0 then
      var p := Pass(None, hits, rows, counter, budget, Tally(0, NOTHING, 0));
      p
    else
      var before := Passes(shares, hits, rows, counter, budget, k - 1);
      TierPass(shares, before, rows, counter, budget, TierAt(k - 1))
  }

  /** Injection order: pinned first, then score, then public id. */
  function InjectionOrder(rows: Rows): Le<Hit> {
    (a: Hit, b: Hit) =>
      var pa := a.rowid in rows && rows[a.rowid].pinned;
      var pb := b.rowid in rows && rows[b.rowid].pinned;
      if pa != pb then pa
      else if a.score != b.score then a.score > b.score
      else LexLe(a.publicId, b.publicId)
  }

  function PackAll(split: Split, budget: nat, hits: seq<Hit>, rows: Rows, counter: Counter): (r: Packed) {
    Passes(Alloc(split, budget), Sort(hits, InjectionOrder(rows)), rows, counter, budget, 4)
  }

  // ---- accounting ----------------------------------------------------------------------------

  ghost predicate Owned(h: Hit, rows: Rows, t: Tier, pinned: bool) {
    h.rowid in rows && rows[h.rowid].tier == t && rows[h.rowid].pinned == pinned
  }

  ghost function Own(h: Hit, rows: Rows, t: Tier, pinned: bool): nat {
    if Owned(h, rows, t, pinned) then h.tokens else 0
  }

  /** Tokens on the hits of tier `t`, pinned or not. */
  ghost function Spent(hits: seq<Hit>, rows: Rows, t: Tier, pinned: bool): (n: nat) {
    if hits == [] then 0 else
      var n := |hits| - 1;
      Spent(hits[..n], rows, t, pinned) + Own(hits[n], rows, t, pinned)
  }

  ghost function Tokens(hits: seq<Hit>): (n: nat) {
    if hits == [] then 0 else Tokens(hits[..|hits| - 1]) + hits[|hits| - 1].tokens
  }

  /** A hit as a pass may meet it: nothing placed means nothing counted, a counted hit
      has a row, and pinned rows are settled before the tier passes. */
  ghost predicate CleanHit(h: Hit, rows: Rows, pass: Option<Tier>) {
    && (h.placement == Unpacked || h.rowid !in rows ==> h.tokens == 0)
    && (pass.None? ==> h.placement == Unpacked)
    && (pass.Some? && h.rowid in rows && rows[h.rowid].pinned ==> h.placement != Unpacked)
  }

  ghost predicate Clean(hits: seq<Hit>, rows: Rows, pass: Option<Tier>) {
    forall i :: 0 <= i < |hits| ==> CleanHit(hits[i], rows, pass)
  }

  lemma HitBalances(pass: Option<Tier>, h: Hit, rows: Rows, counter: Counter, budget: nat, s: Tally)
    requires CleanHit(h, rows, pass) && s.used <= budget
    ensures var r := PassHit(pass, h, rows, counter, budget, s);
            && CleanHit(r.hit, rows, Some(Working))
            && r.tally.used == s.used + r.hit.tokens - h.tokens <= budget
            && s.used <= r.tally.used
            && r.tally.tiers.Total() == s.tiers.Total() + r.hit.tokens - h.tokens
  {
  }

  /** What one pass adds to every total is the same amount. */
  lemma {:induction false} PassBalances(pass: Option<Tier>, hits: seq<Hit>, rows: Rows, counter: Counter, budget: nat,
                                        s: Tally)
    requires Clean(hits, rows, pass) && s.used <= budget
    ensures var r := Pass(pass, hits, rows, counter, budget, s);
            && Clean(r.hits, rows, Some(Working))
            && s.used <= r.tally.used <= budget
            && r.tally.used == s.used + Tokens(r.hits) - Tokens(hits)
            && r.tally.tiers.Total() == s.tiers.Total() + Tokens(r.hits) - Tokens(hits)
  {
    if hits != [] {
      var n := |hits| - 1;
      PassBalances(pass, hits[..n], rows, counter, budget, s);
      var before := Pass(pass, hits[..n], rows, counter, budget, s);
      assert CleanHit(hits[n], rows, pass);
      HitBalances(pass, hits[n], rows, counter, budget, before.tally);
    }
  }

  lemma HitSpends(pass: Option<Tier>, h: Hit, rows: Rows, counter: Counter, budget: nat, s: Tally, t: Tier)
    requires CleanHit(h, rows, pass)
    ensures var r := PassHit(pass, h, rows, counter, budget, s);
            && r.tally.tiers.Get(t) - s.tiers.Get(t)
                 == Own(r.hit, rows, t, true)
                     + Own(r.hit, rows, t, false) - Own(h, rows, t, true) - Own(h, rows, t, false)
            && (pass != Some(t) ==> Own(r.hit, rows, t, false) == Own(h, rows, t, false))
            && (pass == Some(t) ==>
                  Own(r.hit, rows, t, false) + r.tally.available == Own(h, rows, t, false) + s.available)
  {
  }

  /** Per tier: the pass of tier `t` moves tokens from its share to non-pinned hits of
      tier `t` and nowhere else; no subtraction from the share ever saturates. */
  lemma {:induction false} PassSpends(pass: Option<Tier>, hits: seq<Hit>, rows: Rows, counter: Counter, budget: nat,
                                      s: Tally, t: Tier)
    requires Clean(hits, rows, pass)
    ensures var r := Pass(pass, hits, rows, counter, budget, s);
            && r.tally.tiers.Get(t) - s.tiers.Get(t)
                 == Spent(r.hits, rows, t, true)
                     + Spent(r.hits, rows, t, false) - Spent(hits, rows, t, true) - Spent(hits, rows, t, false)
            && (pass != Some(t) ==> Spent(r.hits, rows, t, false) == Spent(hits, rows, t, false))
            && (pass == Some(t) ==>
                  Spent(r.hits, rows, t, false) + r.tally.available == Spent(hits, rows, t, false) + s.available)
  {
    if hits != [] {
      var n := |hits| - 1;
      PassSpends(pass, hits[..n], rows, counter, budget, s, t);
      var before := Pass(pass, hits[..n], rows, counter, budget, s);
      var p := PassHit(pass, hits[n], rows, counter, budget, before.tally);
      assert CleanHit(hits[n], rows, pass);
      HitSpends(pass, hits[n], rows, counter, budget, before.tally, t);
      SpentSnoc(before.hits, p.hit, rows, t, true);
      SpentSnoc(before.hits, p.hit, rows, t, false);
    }
  }

  lemma SpentSnoc(hits: seq<Hit>, h: Hit, rows: Rows, t: Tier, pinned: bool)
    ensures Spent(hits + [h], rows, t, pinned) == Spent(hits, rows, t, pinned) + Own(h, rows, t, pinned)
  {
    assert (hits + [h])[..|hits|] == hits;
  }

  /** The same hit but for its placement. */
  ghost predicate SameHit(a: Hit, b: Hit) {
    a == b.(placement := a.placement, tokens := a.tokens)
  }

  /** What a pass leaves behind: hits and order are untouched, placements are final. */
  lemma {:induction false} PassKeeps(pass: Option<Tier>, hits: seq<Hit>, rows: Rows, counter: Counter, budget: nat,
                                     s: Tally, i: nat)
    requires i < |hits|
    ensures var r := Pass(pass, hits, rows, counter, budget, s);
            && SameHit(r.hits[i], hits[i])
            && (hits[i].placement != Unpacked && pass.Some? ==> r.hits[i] == hits[i])
            && (r.hits[i].placement == Unpacked ==>
                  && hits[i].placement == Unpacked && hits[i].rowid in rows
                  && (if pass.None? then !rows[hits[i].rowid].pinned else rows[hits[i].rowid].tier != pass.value))
  {
    if i < |hits| - 1 {
      PassKeeps(pass, hits[..|hits| - 1], rows, counter, budget, s, i);
    }
  }

  // ---- the whole packing ------------------------------------------------------------------

  ghost predicate Fresh(hits: seq<Hit>) {
    forall i :: 0 <= i < |hits| ==> hits[i].placement == Unpacked && hits[i].tokens == 0
  }

  /** Shares of the first `k` tiers. */
  function ShareSum(shares: TierTokens, k: nat): (n: nat)
    requires k <= 4
  {
    if k == 0 then 0 else ShareSum(shares, k - 1) + shares.Get(TierAt(k - 1))
  }

  /** Tokens on non-pinned hits of the first `k` tiers. */
  ghost function SpentSum(hits: seq<Hit>, rows: Rows, k: nat): (n: nat)
    requires k <= 4
  {
    if k == 0 then 0 else SpentSum(hits, rows, k - 1) + Spent(hits, rows, TierAt(k - 1), false)
  }

  lemma {:induction false} FreshTotals(hits: seq<Hit>, rows: Rows, t: Tier, pinned: bool)
    requires Fresh(hits)
    ensures Spent(hits, rows, t, pinned) == 0
  {
    if hits != [] {
      FreshTotals(hits[..|hits| - 1], rows, t, pinned);
    }
  }

  /** Hits still unplaced after the pinned pass and `k` tier passes have a row that is
      not pinned and belongs to a later tier. */
  ghost predicate Waiting(hits: seq<Hit>, rows: Rows, k: nat) {
    forall i :: 0 <= i < |hits| && hits[i].placement == Unpacked ==>
      hits[i].rowid in rows && !rows[hits[i].rowid].pinned && k <= Rank(rows[hits[i].rowid].tier)
  }

  lemma PassWaits(t: Tier, hits: seq<Hit>, rows: Rows, counter: Counter, budget: nat, s: Tally)
    requires Waiting(hits, rows, Rank(t))
    ensures Waiting(Pass(Some(t), hits, rows, counter, budget, s).hits, rows, Rank(t) + 1)
  {
    var r := Pass(Some(t), hits, rows, counter, budget, s);
    forall i | 0 <= i < |r.hits| && r.hits[i].placement == Unpacked
      ensures r.hits[i].rowid in rows && !rows[r.hits[i].rowid].pinned
                && Rank(t) + 1 <= Rank(rows[r.hits[i].rowid].tier)
    {
      PassKeeps(Some(t), hits, rows, counter, budget, s, i);
      assert hits[i].placement == Unpacked;
    }
  }

  lemma {:induction false} PassesWait(shares: TierTokens, hits: seq<Hit>, rows: Rows, counter: Counter, budget: nat,
                                      k: nat)
    requires k <= 4 && Fresh(hits)
    ensures Waiting(Passes(shares, hits, rows, counter, budget, k).hits, rows, k)
  {
    if k == 0 {
      forall i | 0 <= i < |hits| {
        PassKeeps(None, hits, rows, counter, budget, Tally(0, NOTHING, 0), i);
      }
    } else {
      PassesWait(shares, hits, rows, counter, budget, k - 1);
      var before := Passes(shares, hits, rows, counter, budget, k - 1);
      PassWaits(TierAt(k - 1), before.hits, rows, counter, budget, Offered(shares, TierAt(k - 1), before.tally));
    }
  }

  ghost predicate Balanced(r: Packed, budget: nat) {
    r.tally.used == Tokens(r.hits) == r.tally.tiers.Total() && r.tally.used <= budget
  }

  lemma PinPassBalances(hits: seq<Hit>, rows: Rows, counter: Counter, budget: nat)
    requires Fresh(hits)
    ensures Clean(Pass(None, hits, rows, counter, budget, Tally(0, NOTHING, 0)).hits, rows, Some(Working))
    ensures Balanced(Pass(None, hits, rows, counter, budget, Tally(0, NOTHING, 0)), budget)
  {
    hide Pass, Clean, CleanHit, Tokens, Fresh, Balanced;
    FreshIsClean(hits, rows);
    PassBalances(None, hits, rows, counter, budget, Tally(0, NOTHING, 0));
    StartsBalanced(Pass(None, hits, rows, counter, budget, Tally(0, NOTHING, 0)), hits, budget);
  }

  lemma StartsBalanced(r: Packed, before: seq<Hit>, budget: nat)
    requires Tokens(before) == 0 && r.tally.used <= budget
    requires r.tally.used == Tokens(r.hits) - Tokens(before) == r.tally.tiers.Total() - NOTHING.Total()
    ensures Balanced(r, budget)
  {
    hide Tokens;
  }

  lemma {:induction false} FreshIsClean(hits: seq<Hit>, rows: Rows)
    requires Fresh(hits)
    ensures Clean(hits, rows, None) && Tokens(hits) == 0
  {
    if hits != [] {
      var n := |hits| - 1;
      assert hits[n].tokens == 0;
      FreshIsClean(hits[..n], rows);
    }
  }

  lemma TierPassBalances(shares: TierTokens, before: Packed, rows: Rows, counter: Counter, budget: nat, t: Tier)
    requires Clean(before.hits, rows, Some(Working)) && Balanced(before, budget)
    ensures Clean(TierPass(shares, before, rows, counter, budget, t).hits, rows, Some(Working))
    ensures Balanced(TierPass(shares, before, rows, counter, budget, t), budget)
  {
    assert Clean(before.hits, rows, Some(t)) by {
      forall i | 0 <= i < |before.hits|
        ensures CleanHit(before.hits[i], rows, Some(t))
      {
        assert CleanHit(before.hits[i], rows, Some(Working));
      }
    }
    PassBalances(Some(t), before.hits, rows, counter, budget, Offered(shares, t, before.tally));
  }

  lemma {:induction false} PassesBalance(shares: TierTokens, hits: seq<Hit>, rows: Rows, counter: Counter,
                                         budget: nat, k: nat)
    requires k <= 4 && Fresh(hits)
    ensures Clean(Passes(shares, hits, rows, counter, budget, k).hits, rows, Some(Working))
    ensures Balanced(Passes(shares, hits, rows, counter, budget, k), budget)
  {
    if k == 0 {
      PinPassBalances(hits, rows, counter, budget);
    } else {
      PassesBalance(shares, hits, rows, counter, budget, k - 1);
      TierPassBalances(shares, Passes(shares, hits, rows, counter, budget, k - 1), rows, counter, budget,
          TierAt(k - 1));
    }
  }

  /** Each tier's total is what its hits carry. */
  ghost predicate Counted(r: Packed, rows: Rows, t: Tier) {
    r.tally.tiers.Get(t) == Spent(r.hits, rows, t, true) + Spent(r.hits, rows, t, false)
  }

  lemma {:induction false} PassesCount(shares: TierTokens, hits: seq<Hit>, rows: Rows, counter: Counter, budget: nat,
                                       k: nat, t: Tier)
    requires k <= 4 && Fresh(hits)
    ensures Counted(Passes(shares, hits, rows, counter, budget, k), rows, t)
    ensures k <= Rank(t) ==> Spent(Passes(shares, hits, rows, counter, budget, k).hits, rows, t, false) == 0
  {
    if k == 0 {
      FreshTotals(hits, rows, t, true);
      FreshTotals(hits, rows, t, false);
      PassSpends(None, hits, rows, counter, budget, Tally(0, NOTHING, 0), t);
    } else {
      PassesCount(shares, hits, rows, counter, budget, k - 1, t);
      TierPassSpends(shares, hits, rows, counter, budget, k - 1, t);
    }
  }

  /** What pass `k` does to the account of tier `t`. */
  lemma TierPassSpends(shares: TierTokens, hits: seq<Hit>, rows: Rows, counter: Counter, budget: nat, k: nat, t: Tier)
    requires k < 4 && Fresh(hits)
    ensures var before := Passes(shares, hits, rows, counter, budget, k);
            var after := Passes(shares, hits, rows, counter, budget, k + 1);
            && (Counted(before, rows, t) ==> Counted(after, rows, t))
            && (Rank(t) != k ==> Spent(after.hits, rows, t, false) == Spent(before.hits, rows, t, false))
            && (Rank(t) == k ==>
                  Spent(after.hits, rows, t, false) + after.tally.available
                    == Spent(before.hits, rows, t, false) + SatAdd(shares.Get(t), before.tally.available))
  {
    var before := Passes(shares, hits, rows, counter, budget, k);
    var u := TierAt(k);
    PassesBalance(shares, hits, rows, counter, budget, k);
    assert Clean(before.hits, rows, Some(u));
    PassSpends(Some(u), before.hits, rows, counter, budget, Offered(shares, u, before.tally), t);
  }

  lemma {:induction false} SpentSumKept(shares: TierTokens, hits: seq<Hit>, rows: Rows, counter: Counter, budget: nat,
                                        k: nat, m: nat)
    requires m < k <= 4 && Fresh(hits)
    ensures SpentSum(Passes(shares, hits, rows, counter, budget, k).hits, rows, m)
              == SpentSum(Passes(shares, hits, rows, counter, budget, k - 1).hits, rows, m)
  {
    hide Passes, Spent, Fresh;
    if m > 0 {
      SpentSumKept(shares, hits, rows, counter, budget, k, m - 1);
      TierPassSpends(shares, hits, rows, counter, budget, k - 1, TierAt(m - 1));
    }
  }

  lemma {:induction false} NothingAvailableYet(hits: seq<Hit>, rows: Rows, counter: Counter, budget: nat, s: Tally)
    ensures Pass(None, hits, rows, counter, budget, s).tally.available == s.available
  {
    if hits != [] {
      NothingAvailableYet(hits[..|hits| - 1], rows, counter, budget, s);
    }
  }

  ghost predicate Conserved(shares: TierTokens, r: Packed, rows: Rows, k: nat)
    requires k <= 4
  {
    && SpentSum(r.hits, rows, k) + r.tally.available <= ShareSum(shares, k)
    && (ShareSum(shares, k) <= U64_MAX ==> SpentSum(r.hits, rows, k) + r.tally.available == ShareSum(shares, k))
  }

  lemma ConservedStep(shares: TierTokens, before: Packed, after: Packed, rows: Rows, k: nat)
    requires k < 4 && Conserved(shares, before, rows, k)
    requires SpentSum(after.hits, rows, k) == SpentSum(before.hits, rows, k)
    requires Spent(after.hits, rows, TierAt(k), false) + after.tally.available
               == SatAdd(shares.Get(TierAt(k)), before.tally.available)
    ensures Conserved(shares, after, rows, k + 1)
  {
    assert SpentSum(after.hits, rows, k + 1) == SpentSum(after.hits, rows, k)
             + Spent(after.hits, rows, TierAt(k), false);
    assert ShareSum(shares, k + 1) == ShareSum(shares, k) + shares.Get(TierAt(k));
  }

  lemma ConservedAtStart(shares: TierTokens, hits: seq<Hit>, rows: Rows, counter: Counter, budget: nat)
    ensures Conserved(shares, Passes(shares, hits, rows, counter, budget, 0), rows, 0)
  {
    NothingAvailableYet(hits, rows, counter, budget, Tally(0, NOTHING, 0));
  }

  /** Rollover conserves budget: through any prefix of the tiers, what non-pinned hits
      took plus what is left over is at most the shares offered, and exactly that
      unless adding shares overflowed 64 bits. */
  lemma {:induction false} RolloverConserves(shares: TierTokens, hits: seq<Hit>, rows: Rows, counter: Counter,
                                             budget: nat, k: nat)
    requires k <= 4 && Fresh(hits)
    ensures Conserved(shares, Passes(shares, hits, rows, counter, budget, k), rows, k)
  {
    hide Conserved, Passes, SpentSum, Spent, Fresh;
    if k == 0 {
      ConservedAtStart(shares, hits, rows, counter, budget);
    } else {
      RolloverConserves(shares, hits, rows, counter, budget, k - 1);
      SpentSumKept(shares, hits, rows, counter, budget, k, k - 1);
      TierPassSpends(shares, hits, rows, counter, budget, k - 1, TierAt(k - 1));
      PassesCount(shares, hits, rows, counter, budget, k - 1, TierAt(k - 1));
      ConservedStep(shares, Passes(shares, hits, rows, counter, budget, k - 1),
                    Passes(shares, hits, rows, counter, budget, k), rows, k - 1);
    }
  }

  lemma {:induction false} PrefixWithinShares(shares: TierTokens, hits: seq<Hit>, rows: Rows, counter: Counter,
                                              budget: nat, k: nat, m: nat)
    requires m <= k <= 4 && Fresh(hits)
    ensures SpentSum(Passes(shares, hits, rows, counter, budget, k).hits, rows, m) <= ShareSum(shares, m)
  {
    if m == k {
      RolloverConserves(shares, hits, rows, counter, budget, k);
    } else {
      SpentSumKept(shares, hits, rows, counter, budget, k, m);
      PrefixWithinShares(shares, hits, rows, counter, budget, k - 1, m);
    }
  }

  lemma SortKeepsFresh(hits: seq<Hit>, le: Le<Hit>)
    requires Fresh(hits) && TotalPreorder(le)
    ensures Fresh(Sort(hits, le))
  {
    SortSorts(hits, le);
    forall i | 0 <= i < |hits|
      ensures Sort(hits, le)[i] in hits
    {
      assert Sort(hits, le)[i] in multiset(hits);
    }
  }

  lemma InjectionOrderIsOrder(rows: Rows)
    ensures TotalPreorder(InjectionOrder(rows))
  {
    var le := InjectionOrder(rows);
    forall a: Hit, b: Hit
      ensures le(a, b) || le(b, a)
    {
      LexTotal(a.publicId, b.publicId);
    }
    forall a: Hit, b: Hit, c: Hit | le(a, b) && le(b, c)
      ensures le(a, c)
    {
      if LexLe(a.publicId, b.publicId) && LexLe(b.publicId, c.publicId) {
        LexTransitive(a.publicId, b.publicId, c.publicId);
      }
    }
  }

  /** Hard ceiling, three agreeing totals, nothing left unpacked, and every prefix of
      the tiers within the shares it was offered. */
  lemma PackIsSound(split: Split, budget: nat, hits: seq<Hit>, rows: Rows, counter: Counter)
    requires Fresh(hits)
    ensures var r := PackAll(split, budget, hits, rows, counter);
            && |r.hits| == |hits|
            && Balanced(r, budget)
            && (forall i :: 0 <= i < |r.hits| ==> r.hits[i].placement != Unpacked)
            && (forall t :: Counted(r, rows, t))
            && (forall m :: 0 <= m <= 4 ==> SpentSum(r.hits, rows, m) <= ShareSum(Alloc(split, budget), m))
  {
    var le := InjectionOrder(rows);
    InjectionOrderIsOrder(rows);
    SortKeepsFresh(hits, le);
    var sorted := Sort(hits, le);
    var shares := Alloc(split, budget);
    PassesWait(shares, sorted, rows, counter, budget, 4);
    PassesBalance(shares, sorted, rows, counter, budget, 4);
    forall t: Tier {
      PassesCount(shares, sorted, rows, counter, budget, 4, t);
    }
    forall m | 0 <= m <= 4
      ensures SpentSum(PackAll(split, budget, hits, rows, counter).hits, rows, m) <= ShareSum(shares, m)
    {
      PrefixWithinShares(shares, sorted, rows, counter, budget, 4, m);
    }
  }

  lemma {:induction false} PassesKeep(shares: TierTokens, hits: seq<Hit>, rows: Rows, counter: Counter, budget: nat,
                                      k: nat, i: nat)
    requires k <= 4 && i < |hits|
    ensures SameHit(Passes(shares, hits, rows, counter, budget, k).hits[i], hits[i])
  {
    if k == 0 {
      PassKeeps(None, hits, rows, counter, budget, Tally(0, NOTHING, 0), i);
    } else {
      PassesKeep(shares, hits, rows, counter, budget, k - 1, i);
      var before := Passes(shares, hits, rows, counter, budget, k - 1);
      PassKeeps(Some(TierAt(k - 1)), before.hits, rows, counter, budget, Offered(shares, TierAt(k - 1), before.tally),
          i);
    }
  }

  function Blank(): Hit -> Option<Hit> {
    (h: Hit) => Some(h.(placement := Unpacked, tokens := 0))
  }

  /** The hits without their placements. */
  function Blanked(hits: seq<Hit>): (r: seq<Hit>) {
    FilterMap(Blank(), hits)
  }

  lemma {:induction false} SameHitsBlanked(a: seq<Hit>, b: seq<Hit>)
    requires |a| == |b| && forall i :: 0 <= i < |a| ==> SameHit(a[i], b[i])
    ensures Blanked(a) == Blanked(b)
  {
    if a != [] {
      var n := |a| - 1;
      assert SameHit(a[n], b[n]);
      SameHitsBlanked(a[..n], b[..n]);
    }
  }

  /** Packing permutes the hits and places them: none is added, lost, repeated or changed
      but for its placement. */
  lemma PackPermutes(split: Split, budget: nat, hits: seq<Hit>, rows: Rows, counter: Counter)
    ensures multiset(Blanked(PackAll(split, budget, hits, rows, counter).hits)) == multiset(Blanked(hits))
  {
    hide FilterMap, Passes, Sort;
    var le := InjectionOrder(rows);
    InjectionOrderIsOrder(rows);
    SortSorts(hits, le);
    var sorted := Sort(hits, le);
    var r := PackAll(split, budget, hits, rows, counter).hits;
    forall i | 0 <= i < |r|
      ensures SameHit(r[i], sorted[i])
    {
      PassesKeep(Alloc(split, budget), sorted, rows, counter, budget, 4, i);
    }
    SameHitsBlanked(r, sorted);
    FilterMapForgetsOrder(Blank(), sorted, hits);
  }

  /** Hit for hit, the packing is the input in injection order. */
  lemma PackSame(split: Split, budget: nat, hits: seq<Hit>, rows: Rows, counter: Counter)
    ensures var r, sorted := PackAll(split, budget, hits, rows, counter).hits, Sort(hits, InjectionOrder(rows));
            |r| == |sorted| && forall i :: 0 <= i < |r| ==> SameHit(r[i], sorted[i])
  {
    hide Passes, Sort;
    var r, sorted := PackAll(split, budget, hits, rows, counter).hits, Sort(hits, InjectionOrder(rows));
    forall i | 0 <= i < |r|
      ensures SameHit(r[i], sorted[i])
    {
      PassesKeep(Alloc(split, budget), sorted, rows, counter, budget, 4, i);
    }
  }

  /** Every hit of the input is in the packing, its placement aside. */
  lemma PackHolds(split: Split, budget: nat, hits: seq<Hit>, rows: Rows, counter: Counter, h: Hit) returns (i: nat)
    requires h in multiset(hits)
    ensures i < |PackAll(split, budget, hits, rows, counter).hits|
    ensures SameHit(PackAll(split, budget, hits, rows, counter).hits[i], h)
  {
    hide Sort, Passes;
    InjectionOrderIsOrder(rows);
    SortSorts(hits, InjectionOrder(rows));
    PackSame(split, budget, hits, rows, counter);
    var sorted := Sort(hits, InjectionOrder(rows));
    i :| 0 <= i < |sorted| && sorted[i] == h;
  }

  /** Each packed hit is a hit of the input, its placement aside. */
  lemma PackKeeps(split: Split, budget: nat, hits: seq<Hit>, rows: Rows, counter: Counter, i: nat) returns (h: Hit)
    requires i < |PackAll(split, budget, hits, rows, counter).hits|
    ensures h in multiset(hits) && SameHit(PackAll(split, budget, hits, rows, counter).hits[i], h)
    ensures |PackAll(split, budget, hits, rows, counter).hits| == |hits|
  {
    var le := InjectionOrder(rows);
    InjectionOrderIsOrder(rows);
    SortSorts(hits, le);
    var sorted := Sort(hits, le);
    PassesKeep(Alloc(split, budget), sorted, rows, counter, budget, 4, i);
    h := sorted[i];
    assert h in multiset(sorted);
  }

  /** Packing forgets the order its input came in. */
  lemma PackForgetsOrder(split: Split, budget: nat, hits: seq<Hit>, other: seq<Hit>, rows: Rows, counter: Counter)
    requires multiset(hits) == multiset(other) && DistinctHits(hits)
    ensures PackAll(split, budget, hits, rows, counter) == PackAll(split, budget, other, rows, counter)
  {
    var le := InjectionOrder(rows);
    InjectionOrderIsOrder(rows);
    forall x: Hit, y: Hit | x in multiset(hits) && y in multiset(hits) && le(x, y) && le(y, x)
      ensures x == y
    {
      LexTotal(x.publicId, y.publicId);
    }
    SortForgetsOrder(hits, other, le);
  }

  /** Rounding may offer a little more than the budget, never more than two tokens,
      for non-negative fractions that add up to at most one. */
  lemma SharesOvershoot(split: Split, budget: nat)
    requires split.working >= 0.0 && split.episodic >= 0.0 && split.semantic >= 0.0 && split.procedural >= 0.0
    requires split.working + split.episodic + split.semantic + split.procedural <= 1.0
    ensures Alloc(split, budget).Total() <= budget + 2
  {
    RoundParts(budget as real, split.working, split.episodic, split.semantic, split.procedural, budget);
  }

  /** Both bounds are met: the budget and shares the source names overshoot by one, four
      equal shares of two tokens by two. */
  lemma OvershootHappens()
    ensures Alloc(Split(0.4, 0.3, 0.2, 0.1), 9).Total() == 10
    ensures Alloc(Split(0.25, 0.25, 0.25, 0.25), 2).Total() == 4
  {
    assert RoundU64(Times(9.0, 0.4)) == 4 && RoundU64(Times(9.0, 0.3)) == 3;
    assert RoundU64(Times(9.0, 0.2)) == 2 && RoundU64(Times(9.0, 0.1)) == 1;
    assert RoundU64(Times(2.0, 0.25)) == 1;
  }

  lemma RoundParts(b: real, x: real, y: real, z: real, w: real, n: nat)
    requires 0.0 <= b <= n as real
    requires x >= 0.0 && y >= 0.0 && z >= 0.0 && w >= 0.0 && x + y + z + w <= 1.0
    ensures RoundU64(Times(b, x)) + RoundU64(Times(b, y)) + RoundU64(Times(b, z)) + RoundU64(Times(b, w)) <= n + 2
  {
    FractionsOf(b, x, y, z, w);
    RoundFour(Times(b, x), Times(b, y), Times(b, z), Times(b, w), n);
  }

  lemma RoundFour(x: real, y: real, z: real, w: real, n: nat)
    requires x >= 0.0 && y >= 0.0 && z >= 0.0 && w >= 0.0 && x + y + z + w <= n as real
    ensures RoundU64(x) + RoundU64(y) + RoundU64(z) + RoundU64(w) <= n + 2
  {
    RoundNear(x);
    RoundNear(y);
    RoundNear(z);
    RoundNear(w);
  }

  lemma FractionsOf(b: real, x: real, y: real, z: real, w: real)
    requires b >= 0.0 && x + y + z + w <= 1.0
    requires x >= 0.0 && y >= 0.0 && z >= 0.0 && w >= 0.0
    ensures Times(b, x) + Times(b, y) + Times(b, z) + Times(b, w) <= b
    ensures Times(b, x) >= 0.0 && Times(b, y) >= 0.0 && Times(b, z) >= 0.0 && Times(b, w) >= 0.0
  {
    var f := x + y + z + w;
    assert b * f == b * x + b * y + b * z + b * w;
    assert b * f <= b * 1.0 by {
      assert b * (1.0 - f) >= 0.0;
    }
  }

  lemma RoundNear(x: real)
    requires x >= 0.0
    ensures RoundU64(x) as real <= x + 0.5
  {
  }

  // ---- the method ---------------------------------------------------------------------------

  method RunPass(pass: Option<Tier>, hits: array<Hit>, rows: Rows, counter: Counter, budget: nat, s: Tally)
    returns (r: Tally)
    modifies hits
    ensures Pass(pass, old(hits[..]), rows, counter, budget, s) == Packed(hits[..], r)
  {
    ghost var was := hits[..];
    r := s;
    for i := 0 to hits.Length
      invariant Pass(pass, was[..i], rows, counter, budget, s) == Packed(hits[..i], r)
      invariant forall k :: i <= k < hits.Length ==> hits[k] == was[k]
    {
      hide PassHit;
      assert was[..i + 1][..i] == was[..i] && hits[i] == was[i];
      ghost var done := hits[..i];
      var p := PassHit(pass, hits[i], rows, counter, budget, r);
      hits[i] := p.hit;
      r := p.tally;
      assert hits[..i + 1] == done + [p.hit];
    }
    assert was[..hits.Length] == was && hits[..hits.Length] == hits[..];
  }

  method PackHits(split: Split, budget: nat, hits: seq<Hit>, rows: Rows, counter: Counter) returns (packed: Packed)
    ensures packed == PackAll(split, budget, hits, rows, counter)
  {
    var sorted := Sort(hits, InjectionOrder(rows));
    var a := new Hit[|sorted|](i requires 0 <= i < |sorted| => sorted[i]);
    assert a[..] == sorted;
    var shares := Alloc(split, budget);
    var tally := RunPass(None, a, rows, counter, budget, Tally(0, NOTHING, 0));
    for k := 0 to 4
      invariant Passes(shares, sorted, rows, counter, budget, k) == Packed(a[..], tally)
    {
      tally := RunPass(Some(TierAt(k)), a, rows, counter, budget, Offered(shares, TierAt(k), tally));
    }
    packed := Packed(a[..], tally);
  }
}
