/** What a completed batch import has done to the store: which rows are new, what became of the
    rows that were there, and what the counts mean. */
module ImportEffects {
  import opened Wrappers
  import opened RecallTypes
  import opened Lifecycle
  import opened LifecycleRuns
  import opened LifecycleEffects
  import opened MemoryStore

  // ---- what the counts count ------------------------------------------------------------------

  /** Insertions among the first `n` rows. */
  function Inserts(fates: seq<Fate>, n: nat): (k: nat)
    requires n <= |fates|
  {
    if n == 0 then 0 else Inserts(fates, n - 1) + (if fates[n - 1].NewRow? then 1 else 0)
  }

  /** Rows of the batch that are new, and that bring a new text. */
  ghost function NewRows(fates: seq<Fate>, n: nat): (at: set<int>)
    requires n <= |fates|
  {
    set i | 0 <= i < n && fates[i].NewRow?
  }

  ghost function NewTexts(fates: seq<Fate>, n: nat): (at: set<int>)
    requires n <= |fates|
  {
    set i | 0 <= i < n && fates[i].NewText?
  }

  lemma SizeNext(a: set<int>, b: set<int>, n: int)
    requires n !in a && b == a + {n}
    ensures |b| == |a| + 1
  {
  }

  lemma OneMoreRow(fates: seq<Fate>, n: nat)
    requires n < |fates|
    ensures |NewRows(fates, n + 1)| == |NewRows(fates, n)| + (if fates[n].NewRow? then 1 else 0)
  {
    var a, b := NewRows(fates, n), NewRows(fates, n + 1);
    if fates[n].NewRow? {
      forall i: int
        ensures i in b <==> i in a + {n}
      {
      }
      SizeNext(a, b, n);
    } else {
      forall i: int
        ensures i in b <==> i in a
      {
      }
      assert a == b;
    }
  }

  lemma OneMoreText(fates: seq<Fate>, n: nat)
    requires n < |fates|
    ensures |NewTexts(fates, n + 1)| == |NewTexts(fates, n)| + (if fates[n].NewText? then 1 else 0)
  {
    var a, b := NewTexts(fates, n), NewTexts(fates, n + 1);
    if fates[n].NewText? {
      forall i: int
        ensures i in b <==> i in a + {n}
      {
      }
      SizeNext(a, b, n);
    } else {
      forall i: int
        ensures i in b <==> i in a
      {
      }
      assert a == b;
    }
  }

  lemma {:induction false} CountsPrefix(fates: seq<Fate>, n: nat)
    requires n <= |fates|
    ensures var c := CountsOf(fates[..n]);
            && c.inserted == |NewRows(fates, n)| == Inserts(fates, n) && c.updated == |NewTexts(fates, n)|
            && c.inserted + c.updated + c.deduped == n
  {
    if n == 0 {
      assert NewRows(fates, 0) == {} && NewTexts(fates, 0) == {};
    } else {
      hide NewRows, NewTexts;
      CountsPrefix(fates, n - 1);
      assert fates[..n][..n - 1] == fates[..n - 1];
      OneMoreRow(fates, n - 1);
      OneMoreText(fates, n - 1);
    }
  }

  /** The counts reported: new rows inserted, conflicting ones updated, the rest repeats. */
  lemma CountsAreTrue(fates: seq<Fate>)
    ensures var c := CountsOf(fates);
            && c.inserted == |NewRows(fates, |fates|)| && c.updated == |NewTexts(fates, |fates|)|
            && c.inserted + c.updated + c.deduped == |fates|
            && c.inserted == Inserts(fates, |fates|)
  {
    CountsPrefix(fates, |fates|);
    assert fates[..|fates|] == fates;
  }

  lemma {:induction false} InsertsGrow(fates: seq<Fate>, i: nat, n: nat)
    requires i <= n <= |fates|
    ensures Inserts(fates, i) <= Inserts(fates, n)
    ensures i < n && fates[i].NewRow? ==> Inserts(fates, i) < Inserts(fates, n)
  {
    if i < n {
      InsertsGrow(fates, i, n - 1);
    }
  }

  // ---- the first phase ------------------------------------------------------------------------------

  ghost predicate IdsBelow(s: Store) {
    forall id :: id in s.memories ==> id < s.nextId
  }

  /** A batch as classified against the store it is imported into. */
  datatype Batch = Batch(agent: string, rows: seq<ImportRow>, fates: seq<Fate>, embedded: nat -> bool, now: int)

  /** The batch names only rows that are there. */
  ghost predicate Aimed(s: Store, b: Batch) {
    && |b.fates| == |b.rows| && IdsBelow(s)
    && forall i :: 0 <= i < |b.rows| && !b.fates[i].NewRow? ==> b.fates[i].id in s.memories
  }

  lemma ClassifiedIsAimed(s: Store, b: Batch)
    requires IdsBelow(s) && Classified(s, b.agent, b.rows, b.fates)
    ensures Aimed(s, b)
  {
    forall i | 0 <= i < |b.rows| && !b.fates[i].NewRow?
      ensures b.fates[i].id in s.memories
    {
      assert FateOk(s.memories, b.agent, b.rows[i], b.fates[i]);
    }
  }

  ghost function Written(s: Store, b: Batch, n: nat): Store
    requires n <= |b.rows| == |b.fates|
  {
    Run(s, WriteEvents(b.agent, b.rows, b.fates, b.embedded, b.now, n))
  }

  lemma WrittenNone(s: Store, b: Batch)
    requires |b.rows| == |b.fates|
    ensures Written(s, b, 0) == s
  {
    RunNothing(s);
  }

  /** The event row `n` causes in the first phase, if any. */
  ghost function WriteEvent(b: Batch, n: nat): Option<Event>
    requires n < |b.rows| == |b.fates|
  {
    match b.fates[n]
    case SameText(id) => Some(Bump(id, b.rows[n].source, true, false, b.now))
    case NewText(_) => None
    case NewRow => Some(Create(Imported(b.agent, b.rows[n]), b.embedded(n)))
  }

  lemma WrittenNext(s: Store, b: Batch, n: nat)
    requires n < |b.rows| == |b.fates|
    ensures Written(s, b, n + 1)
              == if WriteEvent(b, n).None? then Written(s, b, n) else Step(Written(s, b, n), WriteEvent(b, n).value)
  {
    hide Run, Step;
    if WriteEvent(b, n).Some? {
      RunSnoc(s, WriteEvents(b.agent, b.rows, b.fates, b.embedded, b.now, n), WriteEvent(b, n).value);
    }
  }

  /** New rows take the next ids in order; no row is lost. */
  lemma {:induction false} WritesAdd(s: Store, b: Batch, n: nat)
    requires Aimed(s, b) && n <= |b.rows|
    ensures Written(s, b, n).nextId == s.nextId + Inserts(b.fates, n)
    ensures forall x :: x in Written(s, b, n).memories <==> x in s.memories || s.nextId <= x < Written(s, b, n).nextId
  {
    hide Written, Imported, Merged;
    if n == 0 {
      WrittenNone(s, b);
    } else {
      WritesAdd(s, b, n - 1);
      WrittenNext(s, b, n - 1);
    }
  }

  lemma WriteLeaves(s: Store, b: Batch, n: nat, x: nat)
    requires Aimed(s, b) && n < |b.rows| && x in Written(s, b, n).memories
    requires b.fates[n].SameText? ==> b.fates[n].id != x
    ensures SameRow(Written(s, b, n), Written(s, b, n + 1), x)
  {
    hide Written, SameRow, AfterCreate, AfterBump, Imported;
    WritesAdd(s, b, n);
    WrittenNext(s, b, n);
    var mid := Written(s, b, n);
    match b.fates[n]
    case SameText(id) => BumpLeaves(mid, id, b.rows[n].source, true, false, b.now, x);
    case NewText(_) => SameStore(mid, x);
    case NewRow => CreateLeaves(mid, Imported(b.agent, b.rows[n]), b.embedded(n), x);
  }

  /** An inserted row is stored as it came, with a vector exactly if it was embedded, and nothing later
      in the phase touches it. */
  lemma {:induction false} InsertedStays(s: Store, b: Batch, n: nat, i: nat)
    requires Aimed(s, b) && s.vectors.Keys <= s.memories.Keys && i < n <= |b.rows| && b.fates[i].NewRow?
    ensures var id := s.nextId + Inserts(b.fates, i);
            && id in Written(s, b, n).memories && Written(s, b, n).memories[id] == Imported(b.agent, b.rows[i])
            && (id in Written(s, b, n).vectors <==> b.embedded(i))
  {
    hide Written, Imported, CopyOf, WriteEvent;
    WritesAdd(s, b, n - 1);
    if i == n - 1 {
      InsertStores(s, b, i);
    } else {
      InsertedStays(s, b, n - 1, i);
      WriteLeaves(s, b, n - 1, s.nextId + Inserts(b.fates, i));
    }
  }

  lemma InsertStores(s: Store, b: Batch, i: nat)
    requires Aimed(s, b) && s.vectors.Keys <= s.memories.Keys && i < |b.rows| && b.fates[i].NewRow?
    ensures var id := s.nextId + Inserts(b.fates, i);
            && id in Written(s, b, i + 1).memories && Written(s, b, i + 1).memories[id] == Imported(b.agent, b.rows[i])
            && (id in Written(s, b, i + 1).vectors <==> b.embedded(i))
  {
    hide Written, Imported, CopyOf;
    WritesAdd(s, b, i);
    WrittenNext(s, b, i);
    VectorsGrow(s, b, i);
  }

  /** Vectors belong to rows. */
  lemma {:induction false} VectorsGrow(s: Store, b: Batch, n: nat)
    requires Aimed(s, b) && n <= |b.rows| && s.vectors.Keys <= s.memories.Keys
    ensures Written(s, b, n).vectors.Keys <= Written(s, b, n).memories.Keys
  {
    hide Written, Imported, CopyOf, Merged;
    if n == 0 {
      WrittenNone(s, b);
    } else {
      VectorsGrow(s, b, n - 1);
      WrittenNext(s, b, n - 1);
    }
  }

  /** Sources the first `n` rows apply to row `x`: as repeats, or as new texts. */
  function Sources(rows: seq<ImportRow>, fates: seq<Fate>, n: nat, x: nat, texts: bool): (ks: seq<SourceKind>)
    requires n <= |rows| == |fates|
  {
    if n == 0 then [] else
      var ks := Sources(rows, fates, n - 1, x, texts);
      if !fates[n - 1].NewRow? && fates[n - 1].NewText? == texts && fates[n - 1].id == x then ks + [rows[n - 1].source]
      else ks
  }

  lemma NoSources(t: Trust)
    ensures TrustAfterAll(t, []) == t
  {
  }

  lemma AfterOneMore(t: Trust, ks: seq<SourceKind>, k: SourceKind)
    ensures TrustAfterAll(t, ks + [k]) == TrustAfter(TrustAfterAll(t, ks), k)
  {
    assert (ks + [k])[..|ks|] == ks;
  }

  /** A row that was there keeps its text in the first phase, is counted once per repeat, and has the
      repeats' sources merged. */
  lemma {:induction false} WritesTouch(s: Store, b: Batch, n: nat, x: nat)
    requires Aimed(s, b) && n <= |b.rows| && x in s.memories
    ensures var ks := Sources(b.rows, b.fates, n, x, false);
            var u := Written(s, b, n);
            && x in u.memories && u.memories[x].text == s.memories[x].text
                && u.memories[x].publicId == s.memories[x].publicId
            && u.memories[x].refCount == s.memories[x].refCount + |ks|
            && u.memories[x].trust == TrustAfterAll(s.memories[x].trust, ks)
  {
    hide Written, Imported, CopyOf, TrustAfter, TrustAfterAll;
    if n == 0 {
      WrittenNone(s, b);
      NoSources(s.memories[x].trust);
    } else {
      WritesTouch(s, b, n - 1, x);
      if b.fates[n - 1].SameText? && b.fates[n - 1].id == x {
        WrittenNext(s, b, n - 1);
        AfterOneMore(s.memories[x].trust, Sources(b.rows, b.fates, n - 1, x, false), b.rows[n - 1].source);
      } else {
        WriteLeaves(s, b, n - 1, x);
      }
    }
  }

  // ---- the second phase -----------------------------------------------------------------------------

  ghost function Resolved(mid: Store, b: Batch, n: nat): Store
    requires n <= |b.rows| == |b.fates|
  {
    Run(mid, ConflictEvents(b.rows, b.fates, b.now, n))
  }

  lemma ResolvedNone(mid: Store, b: Batch)
    requires |b.rows| == |b.fates|
    ensures Resolved(mid, b, 0) == mid
  {
    RunNothing(mid);
  }

  lemma ResolvedNext(mid: Store, b: Batch, n: nat)
    requires n < |b.rows| == |b.fates|
    ensures Resolved(mid, b, n + 1)
              == if b.fates[n].NewText?
                 then Step(Resolved(mid, b, n), Update(b.fates[n].id, b.rows[n].text, Some(b.rows[n].source), b.now))
                 else Resolved(mid, b, n)
  {
    hide Run, Step;
    if b.fates[n].NewText? {
      RunSnoc(mid, ConflictEvents(b.rows, b.fates, b.now, n),
              Update(b.fates[n].id, b.rows[n].text, Some(b.rows[n].source), b.now));
    }
  }

  /** The text row `x` ends up with: that of the last conflicting row for it. */
  function LastText(rows: seq<ImportRow>, fates: seq<Fate>, n: nat, x: nat, text: string): string
    requires n <= |rows| == |fates|
  {
    if n == 0 then text
    else if fates[n - 1].NewText? && fates[n - 1].id == x then rows[n - 1].text
    else LastText(rows, fates, n - 1, x, text)
  }

  lemma {:induction false} ConflictsTouch(mid: Store, b: Batch, n: nat, x: nat)
    requires n <= |b.rows| == |b.fates| && x in mid.memories
    ensures var ks := Sources(b.rows, b.fates, n, x, true);
            var u := Resolved(mid, b, n);
            && u.memories.Keys == mid.memories.Keys
            && u.memories[x].text == LastText(b.rows, b.fates, n, x, mid.memories[x].text)
            && u.memories[x].publicId == mid.memories[x].publicId
            && u.memories[x].refCount == mid.memories[x].refCount
            && u.memories[x].trust == TrustAfterAll(mid.memories[x].trust, ks)
            && (ks == [] ==> u.memories[x] == mid.memories[x])
  {
    hide Resolved, TrustAfter, TrustAfterAll, NextVersion;
    if n == 0 {
      ResolvedNone(mid, b);
      NoSources(mid.memories[x].trust);
    } else {
      ConflictsTouch(mid, b, n - 1, x);
      ResolvedNext(mid, b, n - 1);
      AfterOneMore(mid.memories[x].trust, Sources(b.rows, b.fates, n - 1, x, true), b.rows[n - 1].source);
    }
  }

  // ---- a whole import --------------------------------------------------------------------------------

  lemma AppliedIs(s: Store, u: Store, b: Batch, c: Counts)
    requires Applies(s, u, b.agent, b.rows, b.fates, b.embedded, b.now, c)
    ensures u == Resolved(Written(s, b, |b.rows|), b, |b.rows|)
  {
    RunConcat(s, WriteEvents(b.agent, b.rows, b.fates, b.embedded, b.now, |b.rows|),
              ConflictEvents(b.rows, b.fates, b.now, |b.rows|));
  }

  lemma BelowIs(s: Store)
    requires IdsBelow(s)
    ensures forall x :: x in s.memories ==> x < s.nextId
  {
  }

  lemma CountsOfBatch(s: Store, u: Store, b: Batch, c: Counts)
    requires Applies(s, u, b.agent, b.rows, b.fates, b.embedded, b.now, c)
    ensures |b.fates| == |b.rows| && c.inserted == Inserts(b.fates, |b.rows|)
  {
    CountsAreTrue(b.fates);
  }

  /** Exactly as many rows are new as the count says, and no row that was there is gone. */
  lemma ImportGrows(s: Store, u: Store, b: Batch, c: Counts)
    requires StoreOk(s) && Applies(s, u, b.agent, b.rows, b.fates, b.embedded, b.now, c)
    ensures s.memories.Keys <= u.memories.Keys
    ensures |u.memories| == |s.memories| + c.inserted && u.nextId >= s.nextId + c.inserted
  {
    ClassifiedIsAimed(s, b);
    AppliedIs(s, u, b, c);
    CountsOfBatch(s, u, b, c);
    assert IdsBelow(s);
    hide StoreOk, IdsBelow, Applies, Written, Resolved, Aimed;
    var n := |b.rows|;
    WritesAdd(s, b, n);
    var mid := Written(s, b, n);
    ConflictsKeepKeys(mid, b, n);
    BelowIs(s);
    MapGrows(s.memories, u.memories, s.nextId, c.inserted);
  }

  lemma MapGrows(a: map<nat, Memory>, b: map<nat, Memory>, first: nat, k: nat)
    requires forall x :: x in b <==> x in a || first <= x < first + k
    requires forall x :: x in a ==> x < first
    ensures |b| == |a| + k && a.Keys <= b.Keys
  {
    var added := Interval(first, k);
    assert b.Keys == a.Keys + added && a.Keys !! added;
    assert |a| == |a.Keys| && |b| == |b.Keys|;
  }

  ghost function Interval(a: nat, k: nat): (ids: set<nat>)
    ensures |ids| == k && forall x :: x in ids <==> a <= x < a + k
  {
    if k == 0 then {} else Interval(a, k - 1) + {a + k - 1}
  }

  lemma {:induction false} ConflictsKeepKeys(mid: Store, b: Batch, n: nat)
    requires n <= |b.rows| == |b.fates|
    ensures Resolved(mid, b, n).memories.Keys == mid.memories.Keys && Resolved(mid, b, n).nextId == mid.nextId
  {
    hide Resolved, NextVersion, Merged;
    if n == 0 {
      ResolvedNone(mid, b);
    } else {
      ConflictsKeepKeys(mid, b, n - 1);
      ResolvedNext(mid, b, n - 1);
    }
  }

  lemma {:induction false} NeverTarget(s: Store, b: Batch, n: nat, x: nat, texts: bool)
    requires Aimed(s, b) && n <= |b.rows| && x !in s.memories
    ensures Sources(b.rows, b.fates, n, x, texts) == []
  {
    if n > 0 {
      NeverTarget(s, b, n - 1, x, texts);
    }
  }

  lemma NewIdIsNew(s: Store, b: Batch, i: nat)
    requires Aimed(s, b) && i <= |b.rows|
    ensures s.nextId + Inserts(b.fates, i) !in s.memories
  {
  }

  /** Every row classified as new is in the store afterwards, exactly as it was in the batch: its public
      id, text, tier, status, times, pin and source, trust from the source, never repeated. */
  lemma ImportInserts(s: Store, u: Store, b: Batch, c: Counts, i: nat) returns (id: nat)
    requires StoreOk(s) && Applies(s, u, b.agent, b.rows, b.fates, b.embedded, b.now, c)
    requires i < |b.rows| && b.fates[i].NewRow?
    ensures id !in s.memories && id in u.memories
    ensures var row, m := b.rows[i], u.memories[id];
            && m.publicId == row.publicId && m.text == row.text && m.tier == row.tier && m.status == row.status
            && m.source == row.source && (m.trust == Untrusted <==> !(row.source == User || row.source == Agent))
            && m.pinned == row.pinned && m.createdAt == row.createdAt && m.updatedAt == row.updatedAt
            && m.agent == b.agent && m.refCount == 0 && m.deletedAt == None
  {
    ClassifiedIsAimed(s, b);
    AppliedIs(s, u, b, c);
    assert s.vectors.Keys <= s.memories.Keys;
    hide StoreOk, Applies, Written, Resolved, Aimed, LastText;
    var n := |b.rows|;
    id := s.nextId + Inserts(b.fates, i);
    InsertedStays(s, b, n, i);
    NewIdIsNew(s, b, i);
    NeverTarget(s, b, n, id, true);
    ConflictsTouch(Written(s, b, n), b, n, id);
  }

  /** A row that was there ends up with the text of the last conflicting row for it, counted once per
      repeat, and untrusted exactly if it was or some row applied to it came from an untrusted source. */
  lemma ImportTouches(s: Store, u: Store, b: Batch, c: Counts, x: nat)
    requires StoreOk(s) && Applies(s, u, b.agent, b.rows, b.fates, b.embedded, b.now, c) && x in s.memories
    ensures x in u.memories && u.memories[x].publicId == s.memories[x].publicId
    ensures u.memories[x].text == LastText(b.rows, b.fates, |b.rows|, x, s.memories[x].text)
    ensures u.memories[x].refCount == s.memories[x].refCount + |Sources(b.rows, b.fates, |b.rows|, x, false)|
    ensures u.memories[x].trust == Untrusted <==>
              || s.memories[x].trust == Untrusted
              || exists i :: 0 <= i < |b.rows| && !b.fates[i].NewRow? && b.fates[i].id == x
                  && TrustOf(b.rows[i].source) == Untrusted
  {
    ClassifiedIsAimed(s, b);
    AppliedIs(s, u, b, c);
    hide StoreOk, Applies, Written, Resolved, Aimed, LastText, TrustAfterAll, Tainted, Sources;
    var n := |b.rows|;
    WritesTouch(s, b, n, x);
    ConflictsTouch(Written(s, b, n), b, n, x);
    MergedTrust(s.memories[x].trust, Sources(b.rows, b.fates, n, x, false));
    MergedTrust(Written(s, b, n).memories[x].trust, Sources(b.rows, b.fates, n, x, true));
    SourcesTaint(b, n, x, false);
    SourcesTaint(b, n, x, true);
  }

  lemma {:induction false} SourcesTaint(b: Batch, n: nat, x: nat, texts: bool)
    requires n <= |b.rows| == |b.fates|
    ensures Tainted(Sources(b.rows, b.fates, n, x, texts)) <==>
              exists i :: 0 <= i < n && !b.fates[i].NewRow? && b.fates[i].NewText? == texts && b.fates[i].id == x
                          && TrustOf(b.rows[i].source) == Untrusted
  {
    hide Tainted;
    if n == 0 {
      NothingTaints();
    } else {
      SourcesTaint(b, n - 1, x, texts);
      TaintSnoc(Sources(b.rows, b.fates, n - 1, x, texts), b.rows[n - 1].source);
    }
  }

  lemma NothingTaints()
    ensures !Tainted([])
  {
  }

  /** What classification says about a row, in plain columns: new when neither its public id nor, among
      active and pending rows of the agent, its text is there; new text when its public id is there with
      another text; else it repeats a row with its text. */
  lemma FateIsExact(memories: map<nat, Memory>, agent: string, row: ImportRow, f: Fate)
    requires FateOk(memories, agent, row, f)
    requires forall a, b :: a in memories && b in memories && memories[a].publicId == memories[b].publicId ==> a == b
    ensures var known := exists id :: id in memories && memories[id].publicId == row.publicId;
            var repeated := exists id :: id in memories && memories[id].agent == agent && memories[id].text == row.text
                                         && (memories[id].status == Active || memories[id].status == Pending);
            && (f.NewRow? <==> !known && !repeated)
            && (f.NewText? <==>
                  exists id :: id in memories && memories[id].publicId == row.publicId && memories[id].text != row.text)
            && (f.SameText? ==> f.id in memories && memories[f.id].text == row.text)
            && (f.NewText? ==> f.id in memories && memories[f.id].publicId == row.publicId)
            && (f.SameText? && known ==> f.id in memories && memories[f.id].publicId == row.publicId)
  {
    if repeated :|
        repeated in memories && memories[repeated].agent == agent && memories[repeated].text == row.text
        && (memories[repeated].status == Active || memories[repeated].status == Pending) {
      assert MemoryStore.Repeats(memories[repeated], agent, row);
    }
    assert Live(memories, row.publicId) <==> exists id :: id in memories && memories[id].publicId == row.publicId;
  }
}
