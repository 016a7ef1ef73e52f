/** The operations behind the lifecycle: remembering with and without vectors, versioned
    updates, pinning, deletion, the retention reaper and batch import. */
module MemoryStore {
  import opened Wrappers
  import opened RecallTypes
  import opened Lifecycle
  import opened LifecycleRuns

  // ---- retention ------------------------------------------------------------------------------

  const DAY_MILLIS: int := 86_400_000

  /** Days to live per tier; zero or less never expires. */
  datatype Ttl = Ttl(working: int, episodic: int, semantic: int, procedural: int) {
    function Days(t: Tier): int {
      match t
      case Working => working
      case Episodic => episodic
      case Semantic => semantic
      case Procedural => procedural
    }
  }

  predicate Expired(m: Memory, now: int, ttl: Ttl) {
    m.status == Active && ttl.Days(m.tier) > 0 && m.createdAt + ttl.Days(m.tier) * DAY_MILLIS < now
  }

  predicate PastGrace(m: Memory, later: int, grace: int) {
    m.status == Deprecated && m.deletedAt.Some? && m.deletedAt.value + grace < later
  }

  /** Ids below `upto` whose row satisfies `p`, in ascending order. */
  function Select(memories: map<nat, Memory>, upto: nat, p: Memory -> bool): (ids: seq<nat>) {
    if upto == 0 then [] else
      Select(memories, upto - 1, p) + (if upto - 1 in memories && p(memories[upto - 1]) then [upto - 1] else [])
  }

  lemma {:induction false} SelectFinds(memories: map<nat, Memory>, upto: nat, p: Memory -> bool, x: nat)
    ensures x in Select(memories, upto, p) <==> x < upto && x in memories && p(memories[x])
  {
    if upto > 0 {
      SelectFinds(memories, upto - 1, p, x);
    }
  }

  /** When each row is written: the code reads the clock once per row. */
  type Clock = nat -> int

  function DeprecateAll(s: Store, ids: seq<nat>, clock: Clock): Store {
    if ids == [] then s else
      var n := |ids| - 1;
      AfterDeprecate(DeprecateAll(s, ids[..n], clock), ids[n], "ttl_deprecate", clock(ids[n]))
  }

  function PurgeAll(s: Store, ids: seq<nat>, clock: Clock): Store {
    if ids == [] then s else
      var n := |ids| - 1;
      AfterPurge(PurgeAll(s, ids[..n], clock), ids[n], "ttl_purge", clock(ids[n]))
  }

  function Aged(m: Memory, now: int): Memory {
    m.(status := Deprecated, deletedAt := Some(now), updatedAt := now)
  }

  lemma {:induction false} DeprecateAllEffect(s: Store, ids: seq<nat>, clock: Clock, x: nat)
    ensures var u := DeprecateAll(s, ids, clock);
            && (x in u.memories <==> x in s.memories) && u.nextId == s.nextId
            && (x in s.memories ==> u.memories[x] == if x in ids then Aged(s.memories[x], clock(x)) else s.memories[x])
  {
    if ids != [] {
      var n := |ids| - 1;
      DeprecateAllEffect(s, ids[..n], clock, x);
      assert x in ids <==> x in ids[..n] || x == ids[n];
    }
  }

  lemma {:induction false} PurgeAllEffect(s: Store, ids: seq<nat>, clock: Clock, x: nat)
    ensures var u := PurgeAll(s, ids, clock);
            && (x in u.memories <==> x in s.memories && x !in ids) && u.nextId == s.nextId
            && (x in u.memories ==> u.memories[x] == s.memories[x])
  {
    hide RowCount, DropVersions, DropLinks, DropItems;
    if ids != [] {
      var n := |ids| - 1;
      PurgeAllEffect(s, ids[..n], clock, x);
      assert x in ids <==> x in ids[..n] || x == ids[n];
    }
  }

  lemma {:induction false} RetentionKeepsStore(s: Store, ids: seq<nat>, clock: Clock)
    requires StoreOk(s)
    ensures StoreOk(DeprecateAll(s, ids, clock)) && StoreOk(PurgeAll(s, ids, clock))
  {
    hide StoreOk, AfterDeprecate, AfterPurge;
    if ids != [] {
      var n := |ids| - 1;
      RetentionKeepsStore(s, ids[..n], clock);
      FlagsKeep(DeprecateAll(s, ids[..n], clock), Deprecate(ids[n], "ttl_deprecate", clock(ids[n])));
      PurgeKeeps(PurgeAll(s, ids[..n], clock), ids[n], "ttl_purge", clock(ids[n]));
    }
  }

  function ExpiredIds(s: Store, now: int, ttl: Ttl): (ids: seq<nat>) {
    Select(s.memories, s.nextId, m => Expired(m, now, ttl))
  }

  function AgedIds(s: Store, later: int, grace: int): (ids: seq<nat>) {
    Select(s.memories, s.nextId, m => PastGrace(m, later, grace))
  }

  function DeprecateExpired(s: Store, now: int, ttl: Ttl, clock: Clock): Store {
    DeprecateAll(s, ExpiredIds(s, now, ttl), clock)
  }

  function PurgeAged(s: Store, later: int, grace: int, clock: Clock): Store {
    PurgeAll(s, AgedIds(s, later, grace), clock)
  }

  /** Clock readings of one run: when the expired rows are looked up and each is deprecated,
      when the rows past their grace period are looked up and each is purged. */
  datatype Readings = Readings(now: int, deprecating: Clock, later: int, purging: Clock)

  /** One reaper run. */
  function Reaped(s: Store, r: Readings, ttl: Ttl, grace: int): Store {
    PurgeAged(DeprecateExpired(s, r.now, ttl, r.deprecating), r.later, grace, r.purging)
  }

  lemma DeprecateExpiredEffect(s: Store, now: int, ttl: Ttl, clock: Clock, x: nat)
    requires x in s.memories ==> x < s.nextId
    ensures var u := DeprecateExpired(s, now, ttl, clock);
            && u.nextId == s.nextId && (x in u.memories <==> x in s.memories)
            && (x in s.memories ==>
                  u.memories[x] == if Expired(s.memories[x], now, ttl) then Aged(s.memories[x], clock(x))
                      else s.memories[x])
  {
    SelectFinds(s.memories, s.nextId, m => Expired(m, now, ttl), x);
    DeprecateAllEffect(s, ExpiredIds(s, now, ttl), clock, x);
  }

  lemma PurgeAgedEffect(s: Store, later: int, grace: int, clock: Clock, x: nat)
    requires x in s.memories ==> x < s.nextId
    ensures var u := PurgeAged(s, later, grace, clock);
            && u.nextId == s.nextId
            && (x in u.memories <==> x in s.memories && !PastGrace(s.memories[x], later, grace))
            && (x in u.memories ==> u.memories[x] == s.memories[x])
  {
    SelectFinds(s.memories, s.nextId, m => PastGrace(m, later, grace), x);
    PurgeAllEffect(s, AgedIds(s, later, grace), clock, x);
  }

  /** The reaper purges exactly the rows deprecated longer than the grace period, counting
      those it has just deprecated itself, and deprecates exactly the other expired ones: active,
      in a tier that expires at all, and older than the tier's days to live. */
  lemma ReaperIsExact(s: Store, r: Readings, ttl: Ttl, grace: int, x: nat)
    requires StoreOk(s) && x in s.memories
    ensures var u := Reaped(s, r, ttl, grace);
            var m := s.memories[x];
            var days := match m.tier
                        case Working => ttl.working
                        case Episodic => ttl.episodic
                        case Semantic => ttl.semantic
                        case Procedural => ttl.procedural;
            var expired := m.status == Active && days > 0 && r.now - m.createdAt > days * 24 * 60 * 60 * 1000;
            var overdue := m.status == Deprecated && m.deletedAt.Some? && r.later - m.deletedAt.value > grace;
            && (x !in u.memories <==> overdue || (expired && r.later - r.deprecating(x) > grace))
            && (x in u.memories ==>
                  u.memories[x] == if !expired then m else
                    var at := r.deprecating(x);
                    m.(status := Deprecated, deletedAt := Some(at), updatedAt := at))
  {
    hide DeprecateExpired, PurgeAged;
    DeprecateExpiredEffect(s, r.now, ttl, r.deprecating, x);
    PurgeAgedEffect(DeprecateExpired(s, r.now, ttl, r.deprecating), r.later, grace, r.purging, x);
  }

  lemma ReaperKeepsStore(s: Store, r: Readings, ttl: Ttl, grace: int)
    requires StoreOk(s)
    ensures StoreOk(Reaped(s, r, ttl, grace))
  {
    hide StoreOk, ExpiredIds, AgedIds;
    RetentionKeepsStore(s, ExpiredIds(s, r.now, ttl), r.deprecating);
    var u := DeprecateExpired(s, r.now, ttl, r.deprecating);
    RetentionKeepsStore(u, AgedIds(u, r.later, grace), r.purging);
  }

  lemma {:induction false} SelectNone(memories: map<nat, Memory>, upto: nat, p: Memory -> bool)
    requires forall x :: x in memories ==> !p(memories[x])
    ensures Select(memories, upto, p) == []
  {
    if upto > 0 {
      SelectNone(memories, upto - 1, p);
    }
  }

  /** Running again changes nothing, whatever the clock shows while rows would be written, as
      long as the lookups read the same times. */
  lemma ReaperIsIdempotent(s: Store, r: Readings, again: Readings, ttl: Ttl, grace: int)
    requires StoreOk(s) && again.now == r.now && again.later == r.later
    ensures var u := Reaped(s, r, ttl, grace);
            Reaped(u, again, ttl, grace) == u
  {
    var u := Reaped(s, r, ttl, grace);
    forall x: nat | x in u.memories
      ensures !Expired(u.memories[x], r.now, ttl) && !PastGrace(u.memories[x], r.later, grace)
    {
      SurvivorsAreSettled(s, r, ttl, grace, x);
    }
    SelectNone(u.memories, u.nextId, m => Expired(m, r.now, ttl));
    SelectNone(u.memories, u.nextId, m => PastGrace(m, r.later, grace));
  }

  lemma SurvivorsAreSettled(s: Store, r: Readings, ttl: Ttl, grace: int, x: nat)
    requires StoreOk(s)
    ensures var u := Reaped(s, r, ttl, grace);
            x in u.memories ==> !Expired(u.memories[x], r.now, ttl) && !PastGrace(u.memories[x], r.later, grace)
  {
    hide DeprecateExpired, PurgeAged;
    DeprecateExpiredEffect(s, r.now, ttl, r.deprecating, x);
    PurgeAgedEffect(DeprecateExpired(s, r.now, ttl, r.deprecating), r.later, grace, r.purging, x);
    if x in s.memories {
      ReaperIsExact(s, r, ttl, grace, x);
    }
  }

  // ---- import ---------------------------------------------------------------------------------

  datatype ImportRow = ImportRow(publicId: string, text: string, tier: Tier, status: Status, source: SourceKind,
                                 pinned: bool, createdAt: int, updatedAt: int)

  datatype Fate = SameText(id: nat) | NewText(id: nat) | NewRow

  predicate Repeats(m: Memory, agent: string, row: ImportRow) {
    m.text == row.text && m.agent == agent && (m.status == Active || m.status == Pending)
  }

  /** What classification may decide for a row that is not tombstoned. */
  ghost predicate FateOk(memories: map<nat, Memory>, agent: string, row: ImportRow, f: Fate) {
    match f
    case SameText(id) =>
      && id in memories
      && (if Live(memories, row.publicId) then memories[id].publicId == row.publicId && memories[id].text == row.text
          else Repeats(memories[id], agent, row))
    case NewText(id) => id in memories && memories[id].publicId == row.publicId && memories[id].text != row.text
    case NewRow => !Live(memories, row.publicId) && forall id :: id in memories ==> !Repeats(memories[id], agent, row)
  }

  ghost predicate Classified(s: Store, agent: string, rows: seq<ImportRow>, fates: seq<Fate>) {
    && |fates| == |rows|
    && (forall i :: 0 <= i < |rows| ==>
          !Tombstoned(s.tombstones, rows[i].publicId) && FateOk(s.memories, agent, rows[i], fates[i]))
  }

  function Imported(agent: string, row: ImportRow): Memory {
    Memory(row.publicId, agent, row.tier, row.text, row.status, TrustOf(row.source), row.source,
           row.pinned, 0, row.createdAt, row.updatedAt, None)
  }

  /** Writes of the first `n` rows; rows with new text wait for the second phase. */
  function WriteEvents(agent: string, rows: seq<ImportRow>, fates: seq<Fate>, embedded: nat -> bool, now: int,
                       n: nat): (es: seq<Event>)
    requires n <= |rows| == |fates|
  {
    if n == 0 then [] else
      var es := WriteEvents(agent, rows, fates, embedded, now, n - 1);
      match fates[n - 1]
      case SameText(id) => es + [Bump(id, rows[n - 1].source, true, false, now)]
      case NewText(_) => es
      case NewRow => es + [Create(Imported(agent, rows[n - 1]), embedded(n - 1))]
  }

  function ConflictEvents(rows: seq<ImportRow>, fates: seq<Fate>, now: int, n: nat): (es: seq<Event>)
    requires n <= |rows| == |fates|
  {
    if n == 0 then [] else
      var es := ConflictEvents(rows, fates, now, n - 1);
      if fates[n - 1].NewText? then es + [Update(fates[n - 1].id, rows[n - 1].text, Some(rows[n - 1].source), now)]
          else es
  }

  lemma {:induction false} RunConcat(s: Store, a: seq<Event>, b: seq<Event>)
    ensures Run(s, a + b) == Run(Run(s, a), b)
    ensures AllAllowed(s, a + b) <==> AllAllowed(s, a) && AllAllowed(Run(s, a), b)
    decreases |a|
  {
    hide Step, Allowed;
    if a == [] {
      assert a + b == b;
    } else {
      assert (a + b)[0] == a[0] && (a + b)[1..] == a[1..] + b;
      RunConcat(Step(s, a[0]), a[1..], b);
    }
  }

  lemma RunSnoc(s: Store, a: seq<Event>, e: Event)
    ensures Run(s, a + [e]) == Step(Run(s, a), e)
    ensures AllAllowed(s, a + [e]) <==> AllAllowed(s, a) && Allowed(Run(s, a), e)
  {
    hide Step, Allowed;
    RunConcat(s, a, [e]);
    RunJust(Run(s, a), e);
  }

  /** No event of an import forgets or adds a tombstone. */
  lemma {:induction false} WritesKeepTombstones(s: Store, agent: string, rows: seq<ImportRow>, fates: seq<Fate>,
                                                embedded: nat -> bool, now: int, n: nat)
    requires n <= |rows| == |fates|
    ensures Run(s, WriteEvents(agent, rows, fates, embedded, now, n)).tombstones == s.tombstones
  {
    hide Run;
    if n == 0 {
      RunNothing(s);
    } else {
      WritesKeepTombstones(s, agent, rows, fates, embedded, now, n - 1);
      var es := WriteEvents(agent, rows, fates, embedded, now, n - 1);
      match fates[n - 1]
      case SameText(id) => RunSnoc(s, es, Bump(id, rows[n - 1].source, true, false, now));
      case NewText(_) =>
      case NewRow => RunSnoc(s, es, Create(Imported(agent, rows[n - 1]), embedded(n - 1)));
    }
  }

  lemma RunNothing(s: Store)
    ensures Run(s, []) == s && AllAllowed(s, [])
  {
  }

  /** A row about to be inserted that is not live yet is an allowed creation. */
  lemma InsertIsAllowed(s: Store, agent: string, rows: seq<ImportRow>, fates: seq<Fate>, embedded: nat -> bool,
                        now: int, n: nat)
    requires Classified(s, agent, rows, fates) && n < |rows| && fates[n] == NewRow
    requires !Live(Run(s, WriteEvents(agent, rows, fates, embedded, now, n)).memories, rows[n].publicId)
    ensures Allowed(Run(s, WriteEvents(agent, rows, fates, embedded, now, n)),
              Create(Imported(agent, rows[n]), embedded(n)))
  {
    hide Run;
    WritesKeepTombstones(s, agent, rows, fates, embedded, now, n);
  }

  lemma {:induction false} ConflictsAllowed(s: Store, rows: seq<ImportRow>, fates: seq<Fate>, now: int, n: nat)
    requires n <= |rows| == |fates|
    ensures AllAllowed(s, ConflictEvents(rows, fates, now, n))
  {
    hide Run;
    if n == 0 {
      RunNothing(s);
    } else {
      ConflictsAllowed(s, rows, fates, now, n - 1);
      if fates[n - 1].NewText? {
        RunSnoc(s, ConflictEvents(rows, fates, now, n - 1),
                Update(fates[n - 1].id, rows[n - 1].text, Some(rows[n - 1].source), now));
      }
    }
  }

  datatype Counts = Counts(inserted: nat, deduped: nat, updated: nat)

  function CountsOf(fates: seq<Fate>): Counts {
    if fates == [] then Counts(0, 0, 0) else
      var c := CountsOf(fates[..|fates| - 1]);
      match fates[|fates| - 1]
      case SameText(_) => c.(deduped := c.deduped + 1)
      case NewText(_) => c.(updated := c.updated + 1)
      case NewRow => c.(inserted := c.inserted + 1)
  }

  datatype ImportResult = Refused(row: nat) | Failed(row: nat) | Done(counts: Counts)

  function ImportEvents(agent: string, rows: seq<ImportRow>, fates: seq<Fate>, embedded: nat -> bool,
                        now: int): seq<Event>
    requires |rows| == |fates|
  {
    WriteEvents(agent, rows, fates, embedded, now, |rows|) + ConflictEvents(rows, fates, now, |rows|)
  }

  ghost predicate IsRun(s: Store, u: Store, es: seq<Event>) {
    AllAllowed(s, es) && u == Run(s, es)
  }

  /** The writes before row `i` were made; row `i` repeats a public id now live. */
  ghost predicate StopsAt(s: Store, u: Store, agent: string, rows: seq<ImportRow>, fates: seq<Fate>,
                          embedded: nat -> bool, now: int, i: nat) {
    && Classified(s, agent, rows, fates) && i < |rows| && fates[i] == NewRow && Live(u.memories, rows[i].publicId)
    && IsRun(s, u, WriteEvents(agent, rows, fates, embedded, now, i))
  }

  ghost predicate Applies(s: Store, u: Store, agent: string, rows: seq<ImportRow>, fates: seq<Fate>,
                          embedded: nat -> bool, now: int, c: Counts) {
    && Classified(s, agent, rows, fates) && c == CountsOf(fates)
    && IsRun(s, u, ImportEvents(agent, rows, fates, embedded, now))
  }

  ghost predicate Counted(s: Store, u: Store, agent: string, rows: seq<ImportRow>, fates: seq<Fate>, c: Counts) {
    Classified(s, agent, rows, fates) && c == CountsOf(fates).(updated := 0) && u == s
  }

  /** What importing a batch may do: refuse it whole for one tombstoned row, stop at a
      repeated public id, only count on a dry run, or apply it, conflicts last. */
  ghost predicate ImportOutcome(s: Store, u: Store, agent: string, rows: seq<ImportRow>, embedded: nat -> bool,
                                now: int, dryRun: bool, r: ImportResult) {
    if r.Refused? then r.row < |rows| && Tombstoned(s.tombstones, rows[r.row].publicId) && u == s
    else if r.Failed? then !dryRun && exists fates :: StopsAt(s, u, agent, rows, fates, embedded, now, r.row)
    else if dryRun then exists fates :: Counted(s, u, agent, rows, fates, r.counts)
    else exists fates :: Applies(s, u, agent, rows, fates, embedded, now, r.counts)
  }

  lemma ImportIsRun(s: Store, u: Store, agent: string, rows: seq<ImportRow>, embedded: nat -> bool, now: int,
                    dryRun: bool, r: ImportResult)
    requires ImportOutcome(s, u, agent, rows, embedded, now, dryRun, r)
    ensures exists es :: IsRun(s, u, es)
  {
    hide Run, AllAllowed, WriteEvents, ConflictEvents, Classified;
    if u == s {
      RunNothing(s);
      assert IsRun(s, u, []);
    }
  }

  /** Every outcome of an import keeps the store consistent and brings back no
      tombstoned id. */
  lemma ImportKeepsStore(s: Store, u: Store, agent: string, rows: seq<ImportRow>, embedded: nat -> bool, now: int,
                         dryRun: bool, r: ImportResult, publicId: string)
    requires StoreOk(s) && ImportOutcome(s, u, agent, rows, embedded, now, dryRun, r)
    ensures StoreOk(u)
    ensures Tombstoned(s.tombstones, publicId) ==> !Live(u.memories, publicId)
  {
    hide StoreOk, ImportOutcome, Run, AllAllowed, Live, Tombstoned;
    ImportIsRun(s, u, agent, rows, embedded, now, dryRun, r);
    var es :| IsRun(s, u, es);
    RunsKeepStore(s, es);
    if Tombstoned(s.tombstones, publicId) {
      TombstonedStaysOut(s, es, publicId);
    }
  }

  // ---- the store -------------------------------------------------------------------------------

  class Database {
    var memories: map<nat, Memory>
    var versions: seq<Version>
    var links: seq<Link>
    var items: seq<nat>
    var pins: map<nat, int>
    var vectors: map<nat, Vector>
    var tombstones: seq<Tombstone>
    var audit: seq<Audit>
    var nextId: nat

    ghost function State(): Store
      reads this
    {
      Store(memories, versions, links, items, pins, vectors, tombstones, audit, nextId)
    }

    constructor ()
      ensures State() == EMPTY
    {
      memories, versions, links, items := map[], [], [], [];
      pins, vectors, tombstones, audit, nextId := map[], map[], [], [], 1;
    }

    method InsertRow(m: Memory, embedded: bool) returns (ok: bool)
      modifies this
      ensures ok == !Live(old(memories), m.publicId)
      ensures State() == if ok then Step(old(State()), Create(m, embedded)) else old(State())
    {
      if id :| id in memories && memories[id].publicId == m.publicId {
        return false;
      }
      var id := nextId;
      memories := memories[id := m];
      nextId := id + 1;
      versions := versions + [Version(id, 1, m.text, None)];
      if embedded {
        vectors := vectors[id := CopyOf(m)];
      }
      return true;
    }

    method BumpRow(id: nat, source: SourceKind, mirror: bool, link: bool, now: int)
      modifies this
      ensures State() == Step(old(State()), Bump(id, source, mirror, link, now))
    {
      hide Merged;
      if id !in memories {
        return;
      }
      var m := Merged(memories[id], source).(refCount := memories[id].refCount + 1, updatedAt := now);
      memories := memories[id := m];
      if mirror && id in vectors {
        vectors := vectors[id := vectors[id].(trust := m.trust)];
      }
      if link && Link(id, id) !in links {
        links := links + [Link(id, id)];
      }
    }

    /** Remember with a vector: `duplicate` is the nearest vector row above the dedup
        threshold, if any; otherwise a new row under a fresh public id. */
    method Persist(m: Memory, duplicate: Option<nat>, now: int) returns (ok: bool)
      modifies this
      ensures duplicate.Some? ==> ok == (duplicate.value in old(memories))
      ensures duplicate.Some? ==> State() == Step(old(State()), Bump(duplicate.value, m.source, true, true, now))
      ensures duplicate.None? && !Live(old(memories), m.publicId) ==>
                ok && State()
                    == Step(old(State()), Create(m.(trust := TrustOf(m.source), pinned := false, refCount := 0), true))
      ensures duplicate.None? && Live(old(memories), m.publicId) ==> !ok && State() == old(State())
    {
      if duplicate.Some? {
        ok := duplicate.value in memories;
        BumpRow(duplicate.value, m.source, true, true, now);
        return;
      }
      ok := InsertRow(m.(trust := TrustOf(m.source), pinned := false, refCount := 0), true);
    }

    /** Remember without a vector: the same text in an active or pending row is a repeat. */
    method PersistNoVector(m: Memory, now: int) returns (ok: bool)
      modifies this
      ensures (exists id :: id in old(memories) && SameLiveText(old(memories)[id], m.text)) ==>
                ok && exists id :: id in old(memories) && SameLiveText(old(memories)[id], m.text)
                                && State() == Step(old(State()), Bump(id, m.source, false, true, now))
      ensures (forall id :: id in old(memories) ==> !SameLiveText(old(memories)[id], m.text)) ==>
                && ok == !Live(old(memories), m.publicId)
                && (if ok then State()
                      == Step(old(State()),
                          Create(m.(trust := TrustOf(m.source), pinned := false, refCount := 0), false))
                    else State() == old(State()))
    {
      if id :| id in memories && SameLiveText(memories[id], m.text) {
        BumpRow(id, m.source, false, true, now);
        return true;
      }
      ok := InsertRow(m.(trust := TrustOf(m.source), pinned := false, refCount := 0), false);
    }

    method CurrentVersion(id: nat) returns (v: nat)
      ensures v == MaxVersion(versions, id)
    {
      v := 0;
      for i := 0 to |versions|
        invariant v == MaxVersion(versions[..i], id)
      {
        assert versions[..i + 1][..i] == versions[..i];
        if versions[i].memory == id && versions[i].number > v {
          v := versions[i].number;
        }
      }
      assert versions[..|versions|] == versions;
    }

    method UpdateMemory(id: nat, text: string, source: Option<SourceKind>, now: int) returns (ok: bool)
      modifies this
      ensures ok == (id in old(memories))
      ensures State() == Step(old(State()), Update(id, text, source, now))
    {
      if id !in memories {
        return false;
      }
      var current: nat := CurrentVersion(id);
      versions := versions + [Version(id, current + 1, text, if current > 0 then Some(current) else None)];
      var m := memories[id];
      var trust := if source.Some? then TrustAfter(m.trust, source.value) else m.trust;
      var kind := if source.Some? && m.trust != Untrusted then source.value else m.source;
      memories := memories[id := m.(text := text, trust := trust, source := kind, updatedAt := now)];
      if id in vectors {
        vectors := vectors[id := vectors[id].(trust := trust)];
      }
      return true;
    }

    method Rollback(id: nat, version: nat, now: int) returns (ok: bool)
      modifies this
      ensures VersionText(old(versions), id, version).None? ==> !ok
      ensures State() == Step(old(State()), Event.Rollback(id, version, now))
    {
      var target := VersionText(versions, id, version);
      if target.None? {
        return false;
      }
      ok := UpdateMemory(id, target.value, None, now);
    }

    method SetPinned(id: nat, on: bool, now: int) returns (changed: bool)
      modifies this
      ensures changed == (id in old(memories))
      ensures State() == Step(old(State()), Pin(id, on, now))
    {
      if id !in memories {
        return false;
      }
      memories := memories[id := memories[id].(pinned := on, updatedAt := now)];
      if id in vectors {
        vectors := vectors[id := vectors[id].(pinned := on)];
      }
      if on {
        pins := pins[id := now];
      } else {
        pins := pins - {id};
      }
      return true;
    }

    method Deprecate(id: nat, action: string, now: int)
      modifies this
      ensures State() == Step(old(State()), Event.Deprecate(id, action, now))
    {
      if id in memories {
        memories := memories[id := memories[id].(status := Deprecated, deletedAt := Some(now), updatedAt := now)];
        audit := audit + [Audit(action, memories[id].publicId, now)];
      }
    }

    method Restore(id: nat, now: int)
      modifies this
      ensures State() == Step(old(State()), Event.Restore(id, now))
    {
      if id in memories {
        memories := memories[id := memories[id].(status := Active, deletedAt := None, updatedAt := now)];
        audit := audit + [Audit("restore", memories[id].publicId, now)];
      }
    }

    /** Count, then delete children first and the row last. An unknown id fails before
        anything is touched. */
    method EraseRow(id: nat, now: int) returns (tomb: Option<Tombstone>)
      modifies this
      ensures tomb == if id in old(memories) then Some(TombstoneFor(old(State()), id, now)) else None
      ensures State() == if id in old(memories) then AfterErase(old(State()), id) else old(State())
    {
      hide DropVersions, DropLinks, DropItems;
      if id !in memories {
        return None;
      }
      var keptVersions, keptLinks, keptItems := DropVersions(versions, id), DropLinks(links, id), DropItems(items, id);
      var rows: nat := 1 + (|versions| - |keptVersions|) + (|links| - |keptLinks|) + (|items| - |keptItems|)
                         + (if id in pins then 1 else 0) + (if id in vectors then 1 else 0);
      tomb := Some(Tombstone(memories[id].publicId, id, rows, now));
      links := keptLinks;
      versions := keptVersions;
      items := keptItems;
      pins := pins - {id};
      vectors := vectors - {id};
      memories := memories - {id};
    }

    method RecordPurge(tomb: Tombstone, action: string)
      modifies this`tombstones, this`audit
      ensures State() == AfterRecord(old(State()), tomb, action)
    {
      tombstones := tombstones + [tomb];
      audit := audit + [Audit(action, tomb.publicId, tomb.deletedAt)];
    }

    /** The rows go in one write, the evidence comes in a later one. */
    method HardPurge(id: nat, action: string, now: int) returns (ok: bool)
      modifies this
      ensures ok == (id in old(memories))
      ensures State() == Step(old(State()), Purge(id, action, now))
    {
      hide AfterErase, AfterRecord, TombstoneFor;
      var tomb := EraseRow(id, now);
      if tomb.None? {
        return false;
      }
      RecordPurge(tomb.value, action);
      return true;
    }

    method SelectIds(p: Memory -> bool) returns (ids: seq<nat>)
      ensures ids == Select(memories, nextId, p)
    {
      ids := [];
      for x := 0 to nextId
        invariant ids == Select(memories, x, p)
      {
        if x in memories && p(memories[x]) {
          ids := ids + [x];
        }
      }
    }

    method DeprecateRows(ids: seq<nat>, clock: Clock) returns (count: nat)
      modifies this
      ensures State() == DeprecateAll(old(State()), ids, clock) && count == |ids|
    {
      hide AfterDeprecate;
      count := 0;
      for i := 0 to |ids|
        invariant count == i && State() == DeprecateAll(old(State()), ids[..i], clock)
      {
        assert ids[..i + 1][..i] == ids[..i];
        Deprecate(ids[i], "ttl_deprecate", clock(ids[i]));
        count := count + 1;
      }
      assert ids[..|ids|] == ids;
    }

    method PurgeRows(ids: seq<nat>, clock: Clock) returns (count: nat)
      modifies this
      ensures State() == PurgeAll(old(State()), ids, clock) && count == |ids|
    {
      hide AfterPurge;
      count := 0;
      for i := 0 to |ids|
        invariant count == i && State() == PurgeAll(old(State()), ids[..i], clock)
      {
        assert ids[..i + 1][..i] == ids[..i];
        var _ := HardPurge(ids[i], "ttl_purge", clock(ids[i]));
        count := count + 1;
      }
      assert ids[..|ids|] == ids;
    }

    method RunReaper(r: Readings, ttl: Ttl, grace: int) returns (deprecated: nat, purged: nat)
      modifies this
      ensures State() == Reaped(old(State()), r, ttl, grace)
      ensures deprecated == |ExpiredIds(old(State()), r.now, ttl)|
      ensures purged == |AgedIds(DeprecateExpired(old(State()), r.now, ttl, r.deprecating), r.later, grace)|
    {
      hide DeprecateAll, PurgeAll, Select;
      var expired := SelectIds(m => Expired(m, r.now, ttl));
      deprecated := DeprecateRows(expired, r.deprecating);
      var aged := SelectIds(m => PastGrace(m, r.later, grace));
      purged := PurgeRows(aged, r.purging);
    }

    method Classify(agent: string, row: ImportRow) returns (f: Fate)
      ensures FateOk(memories, agent, row, f)
    {
      if id :| id in memories && memories[id].publicId == row.publicId {
        return if memories[id].text == row.text then SameText(id) else NewText(id);
      }
      if id :| id in memories && Repeats(memories[id], agent, row) {
        return SameText(id);
      }
      return NewRow;
    }

    method ClassifyAll(agent: string, rows: seq<ImportRow>) returns (fates: seq<Fate>, refused: Option<nat>)
      ensures refused.None? ==> Classified(State(), agent, rows, fates)
      ensures refused.Some? ==> refused.value < |rows| && Tombstoned(tombstones, rows[refused.value].publicId)
    {
      fates := [];
      for i := 0 to |rows|
        invariant |fates| == i
        invariant forall j :: 0 <= j < i ==>
                    !Tombstoned(tombstones, rows[j].publicId) && FateOk(memories, agent, rows[j], fates[j])
      {
        if Tombstoned(tombstones, rows[i].publicId) {
          return fates, Some(i);
        }
        var f := Classify(agent, rows[i]);
        fates := fates + [f];
      }
      return fates, None;
    }

    /** Write one classified row; a public id that has become live violates uniqueness. */
    method WriteRow(agent: string, row: ImportRow, f: Fate, embedded: bool, now: int) returns (ok: bool)
      modifies this
      ensures ok == !(f.NewRow? && Live(old(memories), row.publicId))
      ensures State() ==
                match f
                case SameText(id) => Step(old(State()), Bump(id, row.source, true, false, now))
                case NewText(_) => old(State())
                case NewRow => if ok then Step(old(State()), Create(Imported(agent, row), embedded)) else old(State())
    {
      match f
      case SameText(id) =>
        BumpRow(id, row.source, true, false, now);
        return true;
      case NewText(_) =>
        return true;
      case NewRow =>
        ok := InsertRow(Imported(agent, row), embedded);
    }

    method ImportBatch(agent: string, rows: seq<ImportRow>, embedded: nat -> bool, now: int, dryRun: bool)
      returns (r: ImportResult)
      modifies this
      ensures ImportOutcome(old(State()), State(), agent, rows, embedded, now, dryRun, r)
    {
      var fates, refused := ClassifyAll(agent, rows);
      if refused.Some? {
        return Refused(refused.value);
      }
      var counts := CountFates(fates);
      ghost var s := State();
      if dryRun {
        assert Counted(s, s, agent, rows, fates, counts.(updated := 0));
        return Done(counts.(updated := 0));
      }
      RunNothing(s);
      for i := 0 to |rows|
        invariant State() == Run(s, WriteEvents(agent, rows, fates, embedded, now, i))
        invariant AllAllowed(s, WriteEvents(agent, rows, fates, embedded, now, i))
      {
        ghost var es := WriteEvents(agent, rows, fates, embedded, now, i);
        var ok := WriteRow(agent, rows[i], fates[i], embedded(i), now);
        if !ok {
          assert StopsAt(s, State(), agent, rows, fates, embedded, now, i);
          return Failed(i);
        }
        if fates[i].SameText? {
          RunSnoc(s, es, Bump(fates[i].id, rows[i].source, true, false, now));
        } else if fates[i].NewRow? {
          InsertIsAllowed(s, agent, rows, fates, embedded, now, i);
          RunSnoc(s, es, Create(Imported(agent, rows[i]), embedded(i)));
        }
      }
      ghost var mid := State();
      RunNothing(mid);
      for i := 0 to |rows|
        invariant State() == Run(mid, ConflictEvents(rows, fates, now, i))
      {
        if fates[i].NewText? {
          RunSnoc(mid, ConflictEvents(rows, fates, now, i),
              Update(fates[i].id, rows[i].text, Some(rows[i].source), now));
          var _ := UpdateMemory(fates[i].id, rows[i].text, Some(rows[i].source), now);
        }
      }
      ConflictsAllowed(mid, rows, fates, now, |rows|);
      RunConcat(s, WriteEvents(agent, rows, fates, embedded, now, |rows|), ConflictEvents(rows, fates, now, |rows|));
      assert Applies(s, State(), agent, rows, fates, embedded, now, counts);
      return Done(counts);
    }
  }

  predicate SameLiveText(m: Memory, text: string) {
    m.text == text && (m.status == Active || m.status == Pending)
  }

  /** Repeats are looked for among active and pending rows, by their text; an import looks only at
      rows of its own agent. */
  lemma RepeatsAreLive(m: Memory, agent: string, row: ImportRow)
    ensures SameLiveText(m, row.text) <==> m.text == row.text && m.status != Deprecated && m.status != Deleted
    ensures Repeats(m, agent, row) <==>
              m.agent == agent && m.text == row.text && m.status != Deprecated && m.status != Deleted
  {
  }

  method CountFates(fates: seq<Fate>) returns (c: Counts)
    ensures c == CountsOf(fates)
  {
    c := Counts(0, 0, 0);
    for i := 0 to |fates|
      invariant c == CountsOf(fates[..i])
    {
      assert fates[..i + 1][..i] == fates[..i];
      match fates[i]
      case SameText(_) => c := c.(deduped := c.deduped + 1);
      case NewText(_) => c := c.(updated := c.updated + 1);
      case NewRow => c := c.(inserted := c.inserted + 1);
    }
    assert fates[..|fates|] == fates;
  }
}
