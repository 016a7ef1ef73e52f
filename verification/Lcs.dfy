/** Longest common subsequences: the full table with backtracking (store.rs) and the
    rolling row (rouge.rs) both reach the maximum over all common subsequences. */
module Lcs {

  /** Matched index pairs: both sides strictly increasing, equal elements. */
  ghost predicate IsCommon<T>(a: seq<T>, b: seq<T>, pairs: seq<(nat, nat)>, m: nat, n: nat)
    requires m <= |a| && n <= |b|
  {
    && (forall k :: 0 <= k < |pairs| ==> pairs[k].0 < m && pairs[k].1 < n && a[pairs[k].0] == b[pairs[k].1])
    && (forall k, l :: 0 <= k < l < |pairs| ==> pairs[k].0 < pairs[l].0 && pairs[k].1 < pairs[l].1)
  }

  function Max(x: nat, y: nat): nat {
    if x >= y then x else y
  }

  /** Entry (i, j) of the dynamic-programming table. */
  function Len<T(==)>(a: seq<T>, b: seq<T>, i: nat, j: nat): (l: nat)
    requires i <= |a| && j <= |b|
  {
    if i == 0 || j == 0 then 0
    else if a[i - 1] == b[j - 1] then Len(a, b, i - 1, j - 1) + 1
    else Max(Len(a, b, i - 1, j), Len(a, b, i, j - 1))
  }

  function LcsLen<T(==)>(a: seq<T>, b: seq<T>): (l: nat) {
    Len(a, b, |a|, |b|)
  }

  // ---- the table entry is the maximum ---------------------------------------------

  /** One more element on either side adds at most one. */
  lemma {:induction false} LenGrows<T>(a: seq<T>, b: seq<T>, i: nat, j: nat)
    requires i <= |a| && j <= |b|
    ensures i > 0 ==> Len(a, b, i - 1, j) <= Len(a, b, i, j) <= Len(a, b, i - 1, j) + 1
    ensures j > 0 ==> Len(a, b, i, j - 1) <= Len(a, b, i, j) <= Len(a, b, i, j - 1) + 1
    decreases i + j
  {
    if i > 0 && j > 0 {
      LenGrows(a, b, i - 1, j);
      LenGrows(a, b, i, j - 1);
    }
  }

  lemma {:induction false} NoCommonIsLonger<T>(a: seq<T>, b: seq<T>, pairs: seq<(nat, nat)>, i: nat, j: nat)
    requires i <= |a| && j <= |b| && IsCommon(a, b, pairs, i, j)
    ensures |pairs| <= Len(a, b, i, j)
    decreases i + j
  {
    if pairs != [] {
      var n := |pairs| - 1;
      var last := pairs[n];
      if last == (i - 1, j - 1) {
        NoCommonIsLonger(a, b, pairs[..n], i - 1, j - 1);
      } else if last.0 < i - 1 {
        NoCommonIsLonger(a, b, pairs, i - 1, j);
        LenGrows(a, b, i, j);
      } else {
        NoCommonIsLonger(a, b, pairs, i, j - 1);
        LenGrows(a, b, i, j);
      }
    }
  }

  /** The pairs that backtracking from (i, j) collects, in forward order. */
  function Trace<T(==)>(a: seq<T>, b: seq<T>, i: nat, j: nat): (pairs: seq<(nat, nat)>)
    requires i <= |a| && j <= |b|
    decreases i + j
  {
    if i == 0 || j == 0 then []
    else if a[i - 1] == b[j - 1] then Trace(a, b, i - 1, j - 1) + [(i - 1, j - 1)]
    else if Len(a, b, i - 1, j) >= Len(a, b, i, j - 1) then Trace(a, b, i - 1, j)
    else Trace(a, b, i, j - 1)
  }

  lemma {:induction false} TraceLength<T>(a: seq<T>, b: seq<T>, i: nat, j: nat)
    requires i <= |a| && j <= |b|
    ensures |Trace(a, b, i, j)| == Len(a, b, i, j)
    decreases i + j
  {
    if i > 0 && j > 0 {
      if a[i - 1] == b[j - 1] {
        TraceLength(a, b, i - 1, j - 1);
      } else if Len(a, b, i - 1, j) >= Len(a, b, i, j - 1) {
        TraceLength(a, b, i - 1, j);
      } else {
        TraceLength(a, b, i, j - 1);
      }
    }
  }

  lemma CommonWidens<T>(a: seq<T>, b: seq<T>, pairs: seq<(nat, nat)>, m: nat, n: nat, m': nat, n': nat)
    requires m <= m' <= |a| && n <= n' <= |b| && IsCommon(a, b, pairs, m, n)
    ensures IsCommon(a, b, pairs, m', n')
  {
  }

  lemma CommonSnoc<T>(a: seq<T>, b: seq<T>, pairs: seq<(nat, nat)>, m: nat, n: nat)
    requires m < |a| && n < |b| && a[m] == b[n] && IsCommon(a, b, pairs, m, n)
    ensures IsCommon(a, b, pairs + [(m, n)], m + 1, n + 1)
  {
  }

  lemma {:induction false} TraceIsCommon<T>(a: seq<T>, b: seq<T>, i: nat, j: nat)
    requires i <= |a| && j <= |b|
    ensures IsCommon(a, b, Trace(a, b, i, j), i, j)
    decreases i + j
  {
    if i > 0 && j > 0 {
      var m, n := if a[i - 1] == b[j - 1] || Len(a, b, i - 1, j) >= Len(a, b, i, j - 1) then i - 1 else i,
                  if a[i - 1] == b[j - 1] || Len(a, b, i - 1, j) < Len(a, b, i, j - 1) then j - 1 else j;
      var t := Trace(a, b, m, n);
      TraceIsCommon(a, b, m, n);
      if a[i - 1] == b[j - 1] {
        CommonSnoc(a, b, t, m, n);
        assert Trace(a, b, i, j) == t + [(m, n)];
      } else {
        CommonWidens(a, b, t, m, n, i, j);
        assert Trace(a, b, i, j) == t;
      }
    }
  }

  /** `LcsLen` is attained, by the backtracked pairs, and never exceeded. */
  lemma LcsLenIsMaximum<T>(a: seq<T>, b: seq<T>)
    ensures IsCommon(a, b, Trace(a, b, |a|, |b|), |a|, |b|) && |Trace(a, b, |a|, |b|)| == LcsLen(a, b)
    ensures forall pairs :: IsCommon(a, b, pairs, |a|, |b|) ==> |pairs| <= LcsLen(a, b)
  {
    TraceIsCommon(a, b, |a|, |b|);
    TraceLength(a, b, |a|, |b|);
    forall pairs | IsCommon(a, b, pairs, |a|, |b|)
      ensures |pairs| <= LcsLen(a, b)
    {
      NoCommonIsLonger(a, b, pairs, |a|, |b|);
    }
  }

  // ---- consequences -----------------------------------------------------------------

  lemma {:induction false} LenSymmetric<T>(a: seq<T>, b: seq<T>, i: nat, j: nat)
    requires i <= |a| && j <= |b|
    ensures Len(a, b, i, j) == Len(b, a, j, i)
    decreases i + j
  {
    if i > 0 && j > 0 {
      LenSymmetric(a, b, i - 1, j - 1);
      LenSymmetric(a, b, i - 1, j);
      LenSymmetric(a, b, i, j - 1);
    }
  }

  /** `a` embeds in `b` in order. */
  ghost predicate IsSubsequence<T>(a: seq<T>, b: seq<T>) {
    exists at: seq<nat> :: Embeds(a, b, at)
  }

  ghost predicate Embeds<T>(a: seq<T>, b: seq<T>, at: seq<nat>) {
    && |at| == |a|
    && (forall k :: 0 <= k < |a| ==> at[k] < |b| && a[k] == b[at[k]])
    && (forall k, l :: 0 <= k < l < |a| ==> at[k] < at[l])
  }

  /** Strictly increasing indices below m, m of them, are 0, 1, ..., m - 1. */
  lemma {:induction false} FullIndices(pairs: seq<(nat, nat)>, m: nat, k: nat)
    requires |pairs| == m && k <= m
    requires forall i :: 0 <= i < |pairs| ==> pairs[i].0 < m
    requires forall i, j :: 0 <= i < j < |pairs| ==> pairs[i].0 < pairs[j].0
    ensures forall i :: k <= i < m ==> pairs[i].0 <= i
    decreases m - k
  {
    if k < m {
      FullIndices(pairs, m, k + 1);
      if k + 1 < m {
        assert pairs[k].0 < pairs[k + 1].0;
      }
    }
  }

  lemma {:induction false} IndicesAtLeast(pairs: seq<(nat, nat)>, k: nat)
    requires k <= |pairs| && forall i, j :: 0 <= i < j < |pairs| ==> pairs[i].0 < pairs[j].0
    ensures forall i :: 0 <= i < k ==> pairs[i].0 >= i
  {
    if k > 0 {
      IndicesAtLeast(pairs, k - 1);
      if k > 1 {
        assert pairs[k - 2].0 < pairs[k - 1].0;
      }
    }
  }

  /** The common length is all of `a` exactly when `a` is a subsequence of `b`. */
  lemma FullLengthIsSubsequence<T>(a: seq<T>, b: seq<T>)
    ensures LcsLen(a, b) == |a| <==> IsSubsequence(a, b)
  {
    LcsLenIsMaximum(a, b);
    var t := Trace(a, b, |a|, |b|);
    AtMostEither(a, b);
    if LcsLen(a, b) == |a| {
      FullIndices(t, |a|, 0);
      IndicesAtLeast(t, |a|);
      var at: seq<nat> := seq(|a|, k requires 0 <= k < |a| => t[k].1);
      assert forall k :: 0 <= k < |a| ==> t[k].0 == k && at[k] == t[k].1;
      assert Embeds(a, b, at);
    }
    if IsSubsequence(a, b) {
      var at :| Embeds(a, b, at);
      var pairs: seq<(nat, nat)> := seq(|a|, k requires 0 <= k < |a| => (k as nat, at[k]));
      assert IsCommon(a, b, pairs, |a|, |b|);
    }
  }

  lemma AtMostEither<T>(a: seq<T>, b: seq<T>)
    ensures LcsLen(a, b) <= |a| && LcsLen(a, b) <= |b|
  {
    LenAtMost(a, b, |a|, |b|);
  }

  lemma {:induction false} LenAtMost<T>(a: seq<T>, b: seq<T>, i: nat, j: nat)
    requires i <= |a| && j <= |b|
    ensures Len(a, b, i, j) <= i && Len(a, b, i, j) <= j
    decreases i + j
  {
    if i > 0 && j > 0 {
      LenAtMost(a, b, i - 1, j - 1);
      LenAtMost(a, b, i - 1, j);
      LenAtMost(a, b, i, j - 1);
    }
  }

  /** Full length on both sides means equal sequences. */
  lemma FullBothIsEqual<T>(a: seq<T>, b: seq<T>)
    ensures LcsLen(a, b) == |a| && LcsLen(a, b) == |b| <==> a == b
  {
    LcsLenIsMaximum(a, b);
    if LcsLen(a, b) == |a| && LcsLen(a, b) == |b| {
      var t := Trace(a, b, |a|, |b|);
      FullIndices(t, |a|, 0);
      IndicesAtLeast(t, |a|);
      var back: seq<(nat, nat)> := seq(|t|, k requires 0 <= k < |t| => (t[k].1, t[k].0));
      assert forall k :: 0 <= k < |t| ==> back[k].0 == t[k].1;
      FullIndices(back, |b|, 0);
      IndicesAtLeast(back, |b|);
      forall k | 0 <= k < |a|
        ensures a[k] == b[k]
      {
        assert back[k].0 == k && t[k].0 == k;
      }
    }
    if a == b {
      var same: seq<(nat, nat)> := seq(|a|, k requires 0 <= k < |a| => (k as nat, k as nat));
      assert IsCommon(a, b, same, |a|, |b|);
      AtMostEither(a, b);
    }
  }

  // ---- full table with backtracking --------------------------------------------------

  function Reverse<T>(s: seq<T>): (r: seq<T>)
    ensures |r| == |s|
  {
    if s == [] then [] else Reverse(s[1..]) + [s[0]]
  }

  lemma {:induction false} ReverseSnoc<T>(s: seq<T>, x: T)
    ensures Reverse(s + [x]) == [x] + Reverse(s)
  {
    if s != [] {
      ReverseSnoc(s[1..], x);
      assert (s + [x])[1..] == s[1..] + [x];
    }
  }

  ghost predicate RowIs<T>(a: seq<T>, b: seq<T>, dp: array2<nat>, i: nat)
    requires i <= |a| && dp.Length0 == |a| + 1 && dp.Length1 == |b| + 1
    reads dp
  {
    forall j :: 0 <= j <= |b| ==> dp[i, j] == Len(a, b, i, j)
  }

  method FillRow<T(==)>(a: seq<T>, b: seq<T>, dp: array2<nat>, i: nat, up: nat)
    requires 0 < i <= |a| && up == i - 1 && dp.Length0 == |a| + 1 && dp.Length1 == |b| + 1
    requires RowIs(a, b, dp, up) && dp[i, 0] == 0
    modifies dp
    ensures RowIs(a, b, dp, i)
    ensures forall k, j :: 0 <= k <= |a| && k != i && 0 <= j <= |b| ==> dp[k, j] == old(dp[k, j])
  {
    for j := 1 to |b| + 1
      invariant forall l :: 0 <= l < j ==> dp[i, l] == Len(a, b, i, l)
      invariant forall k, l :: 0 <= k <= |a| && k != i && 0 <= l <= |b| ==> dp[k, l] == old(dp[k, l])
    {
      if a[i - 1] == b[j - 1] {
        dp[i, j] := dp[up, j - 1] + 1;
      } else {
        dp[i, j] := Max(dp[up, j], dp[i, j - 1]);
      }
    }
  }

  method FillTable<T(==)>(a: seq<T>, b: seq<T>) returns (dp: array2<nat>)
    ensures fresh(dp) && dp.Length0 == |a| + 1 && dp.Length1 == |b| + 1
    ensures forall i :: 0 <= i <= |a| ==> RowIs(a, b, dp, i)
  {
    dp := new nat[|a| + 1, |b| + 1]((_, _) => 0);
    for i := 1 to |a| + 1
      invariant forall k :: 0 <= k < i ==> RowIs(a, b, dp, k)
      invariant forall k, j :: i <= k <= |a| && 0 <= j <= |b| ==> dp[k, j] == 0
    {
      label before:
      FillRow(a, b, dp, i, i - 1);
      forall k | 0 <= k < i
        ensures RowIs(a, b, dp, k)
      {
        assert old@before(RowIs(a, b, dp, k));
      }
    }
  }

  method ComputeLcs<T(==)>(a: seq<T>, b: seq<T>) returns (result: seq<(nat, nat)>)
    ensures result == Trace(a, b, |a|, |b|)
    ensures IsCommon(a, b, result, |a|, |b|)
    ensures forall pairs :: IsCommon(a, b, pairs, |a|, |b|) ==> |pairs| <= |result|
  {
    var dp := FillTable(a, b);
    result := [];
    var i: nat, j: nat := |a|, |b|;
    while i > 0 && j > 0
      invariant i <= |a| && j <= |b|
      invariant Trace(a, b, |a|, |b|) == Trace(a, b, i, j) + Reverse(result)
      invariant forall r :: 0 <= r <= |a| ==> RowIs(a, b, dp, r)
      decreases i + j
    {
      assert RowIs(a, b, dp, i - 1) && RowIs(a, b, dp, i);
      if a[i - 1] == b[j - 1] {
        var pair: (nat, nat) := (i - 1, j - 1);
        ReverseSnoc(result, pair);
        assert Trace(a, b, i, j) == Trace(a, b, i - 1, j - 1) + [pair];
        assert Trace(a, b, i - 1, j - 1) + [pair] + Reverse(result) == Trace(a, b, i - 1, j - 1)
                 + ([pair] + Reverse(result));
        result := result + [pair];
        i := i - 1;
        j := j - 1;
      } else if dp[i - 1, j] >= dp[i, j - 1] {
        i := i - 1;
      } else {
        j := j - 1;
      }
    }
    result := Reverse(result);
    LcsLenIsMaximum(a, b);
  }

  // ---- rolling row ----------------------------------------------------------------------

  /** The next table row, computed into `curr` from `prev`. */
  method NextRow<T(==)>(col: seq<T>, row: seq<T>, i: nat, prev: array<nat>, curr: array<nat>)
    requires i < |col| && prev != curr && prev.Length == curr.Length == |row| + 1 && curr[0] == 0
    requires forall j :: 0 <= j <= |row| ==> prev[j] == Len(col, row, i, j)
    modifies curr
    ensures forall j :: 0 <= j <= |row| ==> curr[j] == Len(col, row, i + 1, j)
  {
    for j := 0 to |row|
      invariant forall l :: 0 <= l <= j ==> curr[l] == Len(col, row, i + 1, l)
    {
      curr[j + 1] := if col[i] == row[j] then prev[j] + 1 else Max(prev[j + 1], curr[j]);
    }
  }

  method Clear(curr: array<nat>)
    modifies curr
    ensures forall l :: 0 <= l < curr.Length ==> curr[l] == 0
  {
    for j := 0 to curr.Length
      invariant forall l :: 0 <= l < j ==> curr[l] == 0
    {
      curr[j] := 0;
    }
  }

  method ComputeLcsLen<T(==)>(a: seq<T>, b: seq<T>) returns (len: nat)
    ensures len == LcsLen(a, b)
  {
    if a == [] || b == [] {
      return 0;
    }
    LenSymmetric(a, b, |a|, |b|);
    var row, col := b, a;
    if |a| <= |b| {
      row, col := a, b;
    }
    var prev := new nat[|row| + 1](_ => 0);
    var curr := new nat[|row| + 1](_ => 0);
    for i := 0 to |col|
      invariant fresh(prev) && fresh(curr) && prev != curr && prev.Length == curr.Length == |row| + 1
      invariant forall j :: 0 <= j <= |row| ==> prev[j] == Len(col, row, i, j)
      invariant curr[0] == 0
    {
      NextRow(col, row, i, prev, curr);
      prev, curr := curr, prev;
      Clear(curr);
    }
    return prev[|row|];
  }

  // ---- ROUGE-L ---------------------------------------------------------------------------

  /** Harmonic mean of precision and recall of `l` common tokens. */
  function F1(l: nat, reference: nat, candidate: nat): (score: real)
    requires reference > 0 && candidate > 0
  {
    var precision := (l as real) / (candidate as real);
    var recall := (l as real) / (reference as real);
    if precision + recall == 0.0 then 0.0 else 2.0 * precision * recall / (precision + recall)
  }

  function RougeL<T(==)>(reference: seq<T>, candidate: seq<T>): (score: real) {
    if reference == [] || candidate == [] then 0.0
    else F1(LcsLen(reference, candidate), |reference|, |candidate|)
  }

  lemma CrossDivide(a: real, b: real, c: real, d: real)
    requires b > 0.0 && d > 0.0 && a * d == c * b
    ensures a / b == c / d
  {
    var x := a / b;
    assert x * b == a;
    assert (x * d) * b == c * b;
    assert x * d == c;
  }

  /** The harmonic mean is twice the common length over the total length. */
  lemma HarmonicMean(l: real, m: real, n: real, p: real, r: real)
    requires l > 0.0 && m > 0.0 && n > 0.0 && p * n == l && r * m == l
    ensures p + r > 0.0
    ensures 2.0 * p * r / (p + r) == 2.0 * l / (m + n)
  {
    assert p > 0.0 && r > 0.0;
    assert (2.0 * p * r) * (m + n) == 2.0 * l * (p + r) by {
      assert (2.0 * p * r) * (m + n) == 2.0 * p * (r * m) + 2.0 * r * (p * n);
    }
    CrossDivide(2.0 * p * r, p + r, 2.0 * l, m + n);
  }

  function Dice(l: nat, m: nat, n: nat): real
    requires m + n > 0
  {
    2.0 * (l as real) / ((m + n) as real)
  }

  lemma F1IsDice(l: nat, m: nat, n: nat)
    requires m > 0 && n > 0
    ensures F1(l, m, n) == Dice(l, m, n)
  {
    if l > 0 {
      var p, r := (l as real) / (n as real), (l as real) / (m as real);
      assert p * (n as real) == l as real && r * (m as real) == l as real;
      HarmonicMean(l as real, m as real, n as real, p, r);
    }
  }

  lemma DiceRange(l: nat, m: nat, n: nat)
    requires l <= m && l <= n && m > 0 && n > 0
    ensures 0.0 <= Dice(l, m, n) <= 1.0
    ensures Dice(l, m, n) == 1.0 <==> l == m && l == n
  {
    QuotientRange(2.0 * (l as real), (m + n) as real);
  }

  lemma ProductSign(a: real, t: real)
    requires t > 0.0
    ensures a > 0.0 ==> a * t > 0.0
    ensures a < 0.0 ==> a * t < 0.0
  {
  }

  lemma QuotientRange(x: real, t: real)
    requires 0.0 <= x <= t && t > 0.0
    ensures 0.0 <= x / t <= 1.0 && (x / t == 1.0 <==> x == t)
  {
    var q := x / t;
    assert q * t == x;
    ProductSign(q - 1.0, t);
    ProductSign(q, t);
    assert (q - 1.0) * t == x - t;
  }

  /** ROUGE-L is symmetric, lies in [0, 1], and is 1 exactly on equal non-empty token
      sequences. */
  lemma RougeIsDice<T>(r: seq<T>, c: seq<T>)
    ensures r != [] && c != [] ==> RougeL(r, c) == 2.0 * (LcsLen(r, c) as real) / ((|r| + |c|) as real)
    ensures r == [] || c == [] ==> RougeL(r, c) == 0.0
    ensures RougeL(r, c) == RougeL(c, r)
    ensures 0.0 <= RougeL(r, c) <= 1.0
    ensures RougeL(r, c) == 1.0 <==> r == c && r != []
  {
    LenSymmetric(r, c, |r|, |c|);
    AtMostEither(r, c);
    FullBothIsEqual(r, c);
    if r != [] && c != [] {
      F1IsDice(LcsLen(r, c), |r|, |c|);
      F1IsDice(LcsLen(c, r), |c|, |r|);
      DiceRange(LcsLen(r, c), |r|, |c|);
    }
  }
}
