/** The line diff stored with every new version: faithful to both texts, and minimal. */
module LineDiff {
  import opened Lcs

  datatype Diff<T> = Diff(added: seq<T>, removed: seq<T>)

  function Firsts(pairs: seq<(nat, nat)>): (s: seq<nat>)
    ensures |s| == |pairs| && forall k :: 0 <= k < |pairs| ==> s[k] == pairs[k].0
  {
    seq(|pairs|, k requires 0 <= k < |pairs| => pairs[k].0)
  }

  function Seconds(pairs: seq<(nat, nat)>): (s: seq<nat>)
    ensures |s| == |pairs| && forall k :: 0 <= k < |pairs| ==> s[k] == pairs[k].1
  {
    seq(|pairs|, k requires 0 <= k < |pairs| => pairs[k].1)
  }

  /** Strictly increasing positions within `from..n`. */
  ghost predicate Positions(at: seq<nat>, from: nat, n: nat) {
    && (forall k :: 0 <= k < |at| ==> from <= at[k] < n)
    && (forall k, l :: 0 <= k < l < |at| ==> at[k] < at[l])
  }

  function Matched<T>(s: seq<T>, at: seq<nat>): (lines: seq<T>)
    requires forall k :: 0 <= k < |at| ==> at[k] < |s|
    ensures |lines| == |at| && forall k :: 0 <= k < |at| ==> lines[k] == s[at[k]]
  {
    seq(|at|, k requires 0 <= k < |at| => s[at[k]])
  }

  /** Lines of `s` from position `from` on that are not among `at[k..]`. */
  function Unmatched<T>(s: seq<T>, at: seq<nat>, k: nat, from: nat): (lines: seq<T>)
    requires from <= |s| && k <= |at|
    decreases |s| - from
  {
    if from == |s| then []
    else if k < |at| && at[k] == from then Unmatched(s, at, k + 1, from + 1)
    else [s[from]] + Unmatched(s, at, k, from + 1)
  }

  /** Interleave: `kept` lines at the given positions, `rest` lines everywhere else. */
  function Weave<T>(at: seq<nat>, kept: seq<T>, rest: seq<T>, from: nat, n: nat): (s: seq<T>)
    requires from <= n
    decreases n - from
  {
    if from == n then []
    else if at != [] && at[0] == from && kept != [] then [kept[0]] + Weave(at[1..], kept[1..], rest, from + 1, n)
    else if rest != [] then [rest[0]] + Weave(at, kept, rest[1..], from + 1, n)
    else []
  }

  /** Kept and remaining lines, woven together, are the whole text again. */
  lemma {:induction false} WeaveRestores<T>(s: seq<T>, at: seq<nat>, k: nat, from: nat)
    requires from <= |s| && k <= |at| && Positions(at, 0, |s|) && forall l :: k <= l < |at| ==> from <= at[l]
    ensures Weave(at[k..], Matched(s, at)[k..], Unmatched(s, at, k, from), from, |s|) == s[from..]
    ensures |Unmatched(s, at, k, from)| == |s| - from - (|at| - k)
    decreases |s| - from
  {
    if from < |s| {
      if k < |at| && at[k] == from {
        WeaveRestores(s, at, k + 1, from + 1);
        assert Matched(s, at)[k..][1..] == Matched(s, at)[k + 1..] && at[k..][1..] == at[k + 1..];
      } else {
        WeaveRestores(s, at, k, from + 1);
        assert ([s[from]] + Unmatched(s, at, k, from + 1))[1..] == Unmatched(s, at, k, from + 1);
      }
    }
  }

  /** Up to the next position everything is unmatched. */
  lemma {:induction false} UnmatchedSkips<T>(s: seq<T>, at: seq<nat>, k: nat, from: nat, next: nat)
    requires k < |at| && from <= next < |s| && next == at[k]
    ensures Unmatched(s, at, k, from) == s[from..next] + Unmatched(s, at, k + 1, next + 1)
    decreases next - from
  {
    if from < next {
      UnmatchedSkips(s, at, k, from + 1, next);
      SliceHead(s, from, next);
    } else {
      assert s[from..next] + Unmatched(s, at, k + 1, next + 1) == Unmatched(s, at, k + 1, next + 1);
    }
  }

  lemma SliceHead<T>(s: seq<T>, from: nat, to: nat)
    requires from < to <= |s|
    ensures s[from..to] == [s[from]] + s[from + 1..to]
  {
  }

  lemma {:induction false} UnmatchedRest<T>(s: seq<T>, at: seq<nat>, from: nat)
    requires from <= |s|
    ensures Unmatched(s, at, |at|, from) == s[from..]
    decreases |s| - from
  {
    if from < |s| {
      UnmatchedRest(s, at, from + 1);
    }
  }

  method PushUntil<T>(s: seq<T>, from: nat, stop: nat, lines: seq<T>) returns (r: seq<T>)
    requires from <= stop <= |s|
    ensures r == lines + s[from..stop]
  {
    r := lines;
    var i := from;
    while i < stop
      invariant from <= i <= stop && r == lines + s[from..i]
    {
      r := r + [s[i]];
      i := i + 1;
    }
  }

  /** One side of the walk: what is collected so far plus what is still unmatched. */
  ghost predicate Walked<T>(s: seq<T>, at: seq<nat>, k: nat, i: nat, lines: seq<T>) {
    && k <= |at| && i <= |s| && (k < |at| ==> i <= at[k] < |s|)
    && Unmatched(s, at, 0, 0) == lines + Unmatched(s, at, k, i)
  }

  lemma WalkOn<T>(s: seq<T>, at: seq<nat>, k: nat, i: nat, lines: seq<T>)
    requires Walked(s, at, k, i, lines) && k < |at|
    requires k + 1 < |at| ==> at[k] < at[k + 1] < |s|
    ensures Walked(s, at, k + 1, at[k] + 1, lines + s[i..at[k]])
  {
    UnmatchedSkips(s, at, k, i, at[k]);
  }

  lemma WalkEnds<T>(s: seq<T>, at: seq<nat>, i: nat, lines: seq<T>)
    requires Walked(s, at, |at|, i, lines)
    ensures Unmatched(s, at, 0, 0) == lines + s[i..|s|]
  {
    UnmatchedRest(s, at, i);
  }

  /** Push the unmatched lines in front of the next match, on one side. */
  method Advance<T>(s: seq<T>, ghost at: seq<nat>, ghost k: nat, i: nat, next: nat, lines: seq<T>) returns (r: seq<T>)
    requires Walked(s, at, k, i, lines) && k < |at| && next == at[k]
    requires k + 1 < |at| ==> at[k] < at[k + 1] < |s|
    ensures Walked(s, at, k + 1, next + 1, r)
  {
    WalkOn(s, at, k, i, lines);
    r := PushUntil(s, i, next, lines);
  }

  method ComputeLineDiff<T(==)>(before: seq<T>, after: seq<T>) returns (d: Diff<T>)
    ensures d == DiffOf(before, after, Trace(before, after, |before|, |after|))
  {
    var lcs := ComputeLcs(before, after);
    d := WalkPairs(before, after, lcs);
  }

  method WalkPairs<T(==)>(before: seq<T>, after: seq<T>, lcs: seq<(nat, nat)>) returns (d: Diff<T>)
    requires IsCommon(before, after, lcs, |before|, |after|)
    ensures d == DiffOf(before, after, lcs)
  {
    ghost var p, q := Firsts(lcs), Seconds(lcs);
    var added, removed := [], [];
    var i: nat, j: nat := 0, 0;
    for k := 0 to |lcs|
      invariant Walked(before, p, k, i, removed)
      invariant Walked(after, q, k, j, added)
    {
      assert k + 1 < |lcs| ==> lcs[k].0 < lcs[k + 1].0 && lcs[k].1 < lcs[k + 1].1;
      removed := Advance(before, p, k, i, lcs[k].0, removed);
      added := Advance(after, q, k, j, lcs[k].1, added);
      i := lcs[k].0 + 1;
      j := lcs[k].1 + 1;
    }
    WalkEnds(before, p, i, removed);
    WalkEnds(after, q, j, added);
    removed := PushUntil(before, i, |before|, removed);
    added := PushUntil(after, j, |after|, added);
    d := Diff(added, removed);
  }

  // ---- what the diff means ------------------------------------------------------------

  /** The diff read off a set of matched pairs. */
  function DiffOf<T>(before: seq<T>, after: seq<T>, pairs: seq<(nat, nat)>): (d: Diff<T>) {
    Diff(Unmatched(after, Seconds(pairs), 0, 0), Unmatched(before, Firsts(pairs), 0, 0))
  }

  function Size<T>(d: Diff<T>): nat {
    |d.added| + |d.removed|
  }

  lemma SidesArePositions<T>(before: seq<T>, after: seq<T>, pairs: seq<(nat, nat)>)
    requires IsCommon(before, after, pairs, |before|, |after|)
    ensures Positions(Firsts(pairs), 0, |before|) && Positions(Seconds(pairs), 0, |after|)
    ensures Matched(before, Firsts(pairs)) == Matched(after, Seconds(pairs))
  {
  }

  /** Any matching gives a diff that rebuilds both texts around the same kept lines,
      and whose size is fixed by the number of kept lines. */
  lemma DiffIsFaithful<T>(before: seq<T>, after: seq<T>, pairs: seq<(nat, nat)>)
    requires IsCommon(before, after, pairs, |before|, |after|)
    ensures Positions(Firsts(pairs), 0, |before|) && Positions(Seconds(pairs), 0, |after|)
    ensures var d := DiffOf(before, after, pairs);
            var kept := Matched(before, Firsts(pairs));
            && Weave(Firsts(pairs), kept, d.removed, 0, |before|) == before
            && Weave(Seconds(pairs), kept, d.added, 0, |after|) == after
            && Size(d) == |before| + |after| - 2 * |pairs|
  {
    SidesArePositions(before, after, pairs);
    WeaveRestores(before, Firsts(pairs), 0, 0);
    WeaveRestores(after, Seconds(pairs), 0, 0);
    var kept := Matched(before, Firsts(pairs));
    assert kept[0..] == kept && Firsts(pairs)[0..] == Firsts(pairs) && Seconds(pairs)[0..] == Seconds(pairs);
  }

  /** A diff of two texts in the abstract: kept lines with their positions on either side, and
      what else each side has; woven together they give both texts. */
  ghost predicate Explains<T>(before: seq<T>, after: seq<T>, p: seq<nat>, q: seq<nat>, kept: seq<T>, d: Diff<T>) {
    && |p| == |q| == |kept| && Positions(p, 0, |before|) && Positions(q, 0, |after|)
    && Weave(p, kept, d.removed, 0, |before|) == before
    && Weave(q, kept, d.added, 0, |after|) == after
  }

  /** A full weave holds each kept line at its position and all it needs of the rest. */
  lemma {:induction false} WeaveHolds<T>(at: seq<nat>, kept: seq<T>, rest: seq<T>, from: nat, n: nat, k: nat)
    requires from <= n && |at| == |kept| && Positions(at, from, n) && |Weave(at, kept, rest, from, n)| == n - from
    ensures n - from - |at| <= |rest|
    ensures k < |at| ==> Weave(at, kept, rest, from, n)[at[k] - from] == kept[k]
    decreases n - from
  {
    if from < n {
      if at != [] && at[0] == from {
        assert forall l :: 0 <= l < |at| - 1 ==> at[0] < at[1..][l] && at[1..][l] == at[l + 1];
        WeaveHolds(at[1..], kept[1..], rest, from + 1, n, if k > 0 then k - 1 else 0);
      } else if rest != [] {
        assert forall l :: 0 <= l < |at| ==> at[0] <= at[l];
        WeaveHolds(at, kept, rest[1..], from + 1, n, k);
      }
    }
  }

  function Zip(p: seq<nat>, q: seq<nat>): (pairs: seq<(nat, nat)>)
    requires |p| == |q|
    ensures |pairs| == |p| && forall k :: 0 <= k < |p| ==> pairs[k] == (p[k], q[k])
  {
    seq(|p|, k requires 0 <= k < |p| => (p[k], q[k]))
  }

  /** Every diff keeps a common subsequence, so it cannot be smaller than m + n - 2 LCS. */
  lemma DiffAtLeast<T>(before: seq<T>, after: seq<T>, p: seq<nat>, q: seq<nat>, kept: seq<T>, d: Diff<T>)
    requires Explains(before, after, p, q, kept, d)
    ensures |before| + |after| - 2 * LcsLen(before, after) <= Size(d)
  {
    WeaveHolds(p, kept, d.removed, 0, |before|, 0);
    WeaveHolds(q, kept, d.added, 0, |after|, 0);
    forall k | 0 <= k < |p|
      ensures before[p[k]] == kept[k] == after[q[k]]
    {
      WeaveHolds(p, kept, d.removed, 0, |before|, k);
      WeaveHolds(q, kept, d.added, 0, |after|, k);
    }
    assert IsCommon(before, after, Zip(p, q), |before|, |after|);
    LcsLenIsMaximum(before, after);
  }

  /** The recorded diff explains both texts, has size m + n - 2 LCS, is no larger than any
      diff whatsoever that explains them, and is empty exactly when no line changed. */
  lemma DiffIsMinimal<T>(before: seq<T>, after: seq<T>)
    ensures var pairs := Trace(before, after, |before|, |after|);
            var d := DiffOf(before, after, pairs);
            && IsCommon(before, after, pairs, |before|, |after|)
            && Explains(before, after, Firsts(pairs), Seconds(pairs), Matched(before, Firsts(pairs)), d)
            && Size(d) == |before| + |after| - 2 * LcsLen(before, after)
            && (forall p, q, kept, other :: Explains(before, after, p, q, kept, other) ==> Size(d) <= Size(other))
            && (d == Diff([], []) <==> before == after)
  {
    var pairs := Trace(before, after, |before|, |after|);
    LcsLenIsMaximum(before, after);
    DiffIsFaithful(before, after, pairs);
    forall p, q, kept: seq<T>, other | Explains(before, after, p, q, kept, other)
      ensures |before| + |after| - 2 * LcsLen(before, after) <= Size(other)
    {
      DiffAtLeast(before, after, p, q, kept, other);
    }
    AtMostEither(before, after);
    FullBothIsEqual(before, after);
    assert DiffOf(before, after, pairs) == Diff([], []) <==> Size(DiffOf(before, after, pairs)) == 0;
  }
}
