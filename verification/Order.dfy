/** Comparison sorting as the recall stages use it: a stable sort by a comparator, and
    why the result does not depend on the order of the input. */
module Order {
  import opened Wrappers

  /** Lexicographic order of strings, the tie-break of every stage. */
  predicate LexLe(a: string, b: string) {
    a == [] || (b != [] && (a[0] < b[0] || (a[0] == b[0] && LexLe(a[1..], b[1..]))))
  }

  lemma {:induction false} LexTotal(a: string, b: string)
    ensures LexLe(a, b) || LexLe(b, a)
    ensures LexLe(a, b) && LexLe(b, a) ==> a == b
  {
    if a != [] && b != [] {
      LexTotal(a[1..], b[1..]);
      assert a == [a[0]] + a[1..] && b == [b[0]] + b[1..];
    }
  }

  lemma {:induction false} LexTransitive(a: string, b: string, c: string)
    requires LexLe(a, b) && LexLe(b, c)
    ensures LexLe(a, c)
  {
    if a != [] && a[0] == b[0] && b[0] == c[0] {
      LexTransitive(a[1..], b[1..], c[1..]);
    }
  }

  /** Dictionary order: `a` starts `b`, or is smaller at the first place where they differ. */
  lemma {:induction false} LexIsDictionary(a: string, b: string)
    ensures LexLe(a, b) <==>
              a <= b || exists i :: 0 <= i < |a| && i < |b| && a[..i] == b[..i] && a[i] < b[i]
  {
    if a != [] && b != [] {
      LexIsDictionary(a[1..], b[1..]);
      assert a == [a[0]] + a[1..] && b == [b[0]] + b[1..];
      if a[0] == b[0] {
        if i :| 0 <= i < |a| - 1 && i < |b| - 1 && a[1..][..i] == b[1..][..i] && a[1..][i] < b[1..][i] {
          assert a[..i + 1] == [a[0]] + a[1..][..i] && b[..i + 1] == [b[0]] + b[1..][..i];
          assert a[i + 1] < b[i + 1];
        }
        if i :| 0 <= i < |a| && i < |b| && a[..i] == b[..i] && a[i] < b[i] {
          assert a[1..][..i - 1] == a[..i][1..] && b[1..][..i - 1] == b[..i][1..];
          assert a[1..][i - 1] < b[1..][i - 1];
        }
      } else if a[0] < b[0] {
        assert a[..0] == b[..0];
      } else {
        assert forall i :: 0 < i <= |a| && i <= |b| ==> a[..i][0] != b[..i][0];
      }
    }
  }

  type Le<!T> = (T, T) -> bool

  ghost predicate SortedBy<T>(s: seq<T>, le: Le<T>) {
    forall i, j :: 0 <= i < j < |s| ==> le(s[i], s[j])
  }

  ghost predicate TotalPreorder<T(!new)>(le: Le<T>) {
    && (forall a, b :: le(a, b) || le(b, a))
    && (forall a, b, c :: le(a, b) && le(b, c) ==> le(a, c))
  }

  /** `x` behind everything it does not precede. */
  function Insert<T>(s: seq<T>, x: T, le: Le<T>): (r: seq<T>)
    ensures |r| == |s| + 1
  {
    if s == [] || le(s[|s| - 1], x) then s + [x] else Insert(s[..|s| - 1], x, le) + [s[|s| - 1]]
  }

  function Sort<T>(s: seq<T>, le: Le<T>): (r: seq<T>)
    ensures |r| == |s|
  {
    if s == [] then [] else Insert(Sort(s[..|s| - 1], le), s[|s| - 1], le)
  }

  lemma {:induction false} InsertBag<T>(s: seq<T>, x: T, le: Le<T>)
    ensures multiset(Insert(s, x, le)) == multiset(s) + multiset{x}
  {
    if s != [] && !le(s[|s| - 1], x) {
      InsertBag(s[..|s| - 1], x, le);
      assert s == s[..|s| - 1] + [s[|s| - 1]];
    }
  }

  lemma {:induction false} InsertSorts<T(!new)>(s: seq<T>, x: T, le: Le<T>)
    requires TotalPreorder(le) && SortedBy(s, le)
    ensures SortedBy(Insert(s, x, le), le)
  {
    if s != [] {
      var n := |s| - 1;
      if le(s[n], x) {
        forall i | 0 <= i < |s|
          ensures le(s[i], x)
        {
          assert le(s[i], s[n]);
        }
      } else {
        InsertSorts(s[..n], x, le);
        InsertBag(s[..n], x, le);
        var r := Insert(s[..n], x, le);
        forall i | 0 <= i < |r|
          ensures le(r[i], s[n])
        {
          assert r[i] in multiset(s[..n]) + multiset{x};
        }
      }
    }
  }

  lemma {:induction false} SortSorts<T(!new)>(s: seq<T>, le: Le<T>)
    requires TotalPreorder(le)
    ensures SortedBy(Sort(s, le), le) && multiset(Sort(s, le)) == multiset(s)
  {
    if s != [] {
      var n := |s| - 1;
      SortSorts(s[..n], le);
      InsertSorts(Sort(s[..n], le), s[n], le);
      InsertBag(Sort(s[..n], le), s[n], le);
      assert s == s[..n] + [s[n]];
    }
  }

  /** Elements the comparator cannot tell apart are equal. */
  ghost predicate Separates<T(!new)>(b: multiset<T>, le: Le<T>) {
    forall x, y :: x in b && y in b && le(x, y) && le(y, x) ==> x == y
  }

  lemma HeadsAgree<T(!new)>(s: seq<T>, t: seq<T>, le: Le<T>)
    requires TotalPreorder(le) && SortedBy(s, le) && SortedBy(t, le) && s != [] && t != []
    requires multiset(s) == multiset(t) && Separates(multiset(s), le)
    ensures s[0] == t[0]
  {
    FirstIsLeast(s, le);
    FirstIsLeast(t, le);
    assert s[0] in multiset(s) && t[0] in multiset(t);
  }

  lemma TailBag<T>(s: seq<T>)
    requires s != []
    ensures multiset(s[1..]) == multiset(s) - multiset{s[0]}
  {
    assert s == [s[0]] + s[1..];
  }

  lemma SortedTail<T(!new)>(s: seq<T>, le: Le<T>)
    requires s != [] && SortedBy(s, le) && Separates(multiset(s), le)
    ensures SortedBy(s[1..], le) && Separates(multiset(s[1..]), le)
  {
    TailBag(s);
    assert forall x :: x in multiset(s[1..]) ==> x in multiset(s);
  }

  lemma BagLength<T>(s: seq<T>, t: seq<T>)
    requires multiset(s) == multiset(t)
    ensures |s| == |t|
  {
    assert |s| == |multiset(s)| && |t| == |multiset(t)|;
  }

  /** A bag has at most one sorted arrangement. */
  lemma {:induction false} SortedIsUnique<T(!new)>(s: seq<T>, t: seq<T>, le: Le<T>)
    requires TotalPreorder(le) && SortedBy(s, le) && SortedBy(t, le)
    requires multiset(s) == multiset(t) && Separates(multiset(s), le)
    ensures s == t
    decreases |s|
  {
    BagLength(s, t);
    if s != [] {
      HeadsAgree(s, t, le);
      SortedTail(s, le);
      SortedTail(t, le);
      assert multiset(s[1..]) == multiset(t[1..]) by {
        TailBag(s);
        TailBag(t);
      }
      SortedIsUnique(s[1..], t[1..], le);
      SameHeadAndTail(s, t);
    }
  }

  lemma SameHeadAndTail<T>(s: seq<T>, t: seq<T>)
    requires s != [] && t != [] && s[0] == t[0] && s[1..] == t[1..]
    ensures s == t
  {
    assert s == [s[0]] + s[1..] && t == [t[0]] + t[1..];
  }

  lemma FirstIsLeast<T(!new)>(s: seq<T>, le: Le<T>)
    requires s != [] && TotalPreorder(le) && SortedBy(s, le)
    ensures forall x :: x in multiset(s) ==> le(s[0], x)
  {
    forall x | x in multiset(s)
      ensures le(s[0], x)
    {
      var i :| 0 <= i < |s| && s[i] == x;
      assert i == 0 ==> le(s[0], s[0]);
    }
  }

  /** Sorting forgets the input order. */
  lemma SortForgetsOrder<T(!new)>(s: seq<T>, t: seq<T>, le: Le<T>)
    requires TotalPreorder(le) && multiset(s) == multiset(t) && Separates(multiset(s), le)
    ensures Sort(s, le) == Sort(t, le)
  {
    SortSorts(s, le);
    SortSorts(t, le);
    SortedIsUnique(Sort(s, le), Sort(t, le), le);
  }

  /** A permutation repeats nothing that was not repeated. */
  lemma BagPositions<T>(s: seq<T>, t: seq<T>, i: nat, j: nat)
    requires multiset(s) == multiset(t) && i < j < |s| && s[i] == s[j]
    ensures exists a, b :: 0 <= a < b < |t| && t[a] == s[i] && t[b] == s[i]
  {
    assert s == s[..j] + s[j..];
    assert s[i] in multiset(s[..j]) && s[i] in multiset(s[j..]);
    assert multiset(t)[s[i]] >= 2;
    TwoPositions(t, s[i]);
  }

  lemma {:induction false} TwoPositions<T>(t: seq<T>, x: T)
    requires multiset(t)[x] >= 2
    ensures exists a, b :: 0 <= a < b < |t| && t[a] == x && t[b] == x
  {
    var n := |t| - 1;
    assert t == t[..n] + [t[n]];
    if t[n] == x {
      assert x in multiset(t[..n]);
      var a :| 0 <= a < n && t[..n][a] == x;
      assert t[a] == x && t[n] == x;
    } else {
      TwoPositions(t[..n], x);
      var a, b :| 0 <= a < b < n && t[..n][a] == x && t[..n][b] == x;
      assert t[a] == x && t[b] == x;
    }
  }

  // ---- filtering and mapping ------------------------------------------------------------------

  /** Images of the elements that have one, in order. */
  function FilterMap<T, U>(g: T -> Option<U>, s: seq<T>): (r: seq<U>) {
    if s == [] then [] else
      var n := |s| - 1;
      FilterMap(g, s[..n]) + (if g(s[n]).Some? then [g(s[n]).value] else [])
  }

  lemma {:induction false} FilterMapConcat<T, U>(g: T -> Option<U>, a: seq<T>, b: seq<T>)
    ensures FilterMap(g, a + b) == FilterMap(g, a) + FilterMap(g, b)
  {
    if b == [] {
      assert a + b == a;
    } else {
      FilterMapConcat(g, a, b[..|b| - 1]);
      assert (a + b)[..|a + b| - 1] == a + b[..|b| - 1];
    }
  }

  lemma MiddleBag<T>(a: seq<T>, x: seq<T>, b: seq<T>)
    ensures multiset(a + x + b) == multiset(a + b) + multiset(x)
  {
  }

  lemma FilterMapWithout<T, U>(g: T -> Option<U>, a: seq<T>, x: T, b: seq<T>)
    ensures multiset(FilterMap(g, a + [x] + b)) == multiset(FilterMap(g, a + b)) + multiset(FilterMap(g, [x]))
  {
    hide FilterMap;
    FilterMapConcat(g, a, b);
    FilterMapConcat(g, a, [x]);
    FilterMapConcat(g, a + [x], b);
    MiddleBag(FilterMap(g, a), FilterMap(g, [x]), FilterMap(g, b));
  }

  lemma RemoveAt<T>(t: seq<T>, j: nat)
    requires j < |t|
    ensures multiset(t[..j] + t[j + 1..]) == multiset(t) - multiset{t[j]}
  {
    assert t == t[..j] + [t[j]] + t[j + 1..];
  }

  lemma SplitAt<T>(t: seq<T>, j: nat)
    requires j < |t|
    ensures t == t[..j] + [t[j]] + t[j + 1..]
  {
  }

  /** Mapping a permutation gives a permutation. */
  lemma {:induction false} FilterMapForgetsOrder<T, U>(g: T -> Option<U>, a: seq<T>, b: seq<T>)
    requires multiset(a) == multiset(b)
    ensures multiset(FilterMap(g, a)) == multiset(FilterMap(g, b))
    decreases |a|
  {
    hide FilterMap;
    BagLength(a, b);
    if a == [] {
      assert b == [];
    } else {
      var n := |a| - 1;
      assert a[n] in multiset(b);
      var j :| 0 <= j < |b| && b[j] == a[n];
      var rest := b[..j] + b[j + 1..];
      RemoveAt(a, n);
      RemoveAt(b, j);
      assert a[..n] + a[n + 1..] == a[..n];
      FilterMapForgetsOrder(g, a[..n], rest);
      SplitAt(a, n);
      FilterMapWithout(g, a[..n], a[n], a[n + 1..]);
      SplitAt(b, j);
      FilterMapWithout(g, b[..j], b[j], b[j + 1..]);
    }
  }

  /** No image is lost. */
  lemma {:induction false} FilterMapHolds<T, U>(g: T -> Option<U>, s: seq<T>, t: T)
    requires t in multiset(s) && g(t).Some?
    ensures g(t).value in multiset(FilterMap(g, s))
  {
    var n := |s| - 1;
    assert s == s[..n] + [s[n]];
    if t in multiset(s[..n]) {
      FilterMapHolds(g, s[..n], t);
    }
  }

  lemma {:induction false} FilterMapAt<T, U>(g: T -> Option<U>, s: seq<T>, x: U) returns (t: T)
    requires x in multiset(FilterMap(g, s))
    ensures t in multiset(s) && g(t) == Some(x)
  {
    var n := |s| - 1;
    assert s == s[..n] + [s[n]];
    if x in multiset(FilterMap(g, s[..n])) {
      t := FilterMapAt(g, s[..n], x);
    } else {
      t := s[n];
    }
  }
}
