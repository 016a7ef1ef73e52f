/** What each lifecycle operation does, and leaves alone, in terms of the rows a caller sees: pins,
    reference counts, links and the audit trail, for single steps and over whole runs. */
module LifecycleEffects {
  import opened Wrappers
  import opened RecallTypes
  import opened Lifecycle
  import opened LifecycleRuns

  // ---- one row at a time ------------------------------------------------------------------------

  /** The event is about existing row `x`. */
  predicate Names(e: Event, x: nat) {
    !e.Create? && !e.Recall? && !e.DropOrphans? && e.id == x
  }

  /** Row `x` looks the same: columns, vector copy, pin and versions. */
  ghost predicate SameRow(s: Store, u: Store, x: nat)
    requires x in s.memories
  {
    && x in u.memories && u.memories[x] == s.memories[x]
    && (x in u.vectors <==> x in s.vectors) && (x in s.vectors ==> u.vectors[x] == s.vectors[x])
    && (x in u.pins <==> x in s.pins) && (x in s.pins ==> u.pins[x] == s.pins[x])
    && VersionsOf(u.versions, x) == VersionsOf(s.versions, x)
  }

  /** A step leaves every row it does not name alone. */
  lemma OthersUntouched(s: Store, e: Event, x: nat)
    requires StoreOk(s) && x in s.memories && !Names(e, x)
    ensures SameRow(s, Step(s, e), x)
  {
    assert x < s.nextId;
    hide SameRow, StoreOk, AfterCreate, AfterBump, AfterUpdate, AfterRollback, AfterPin, AfterDeprecate, AfterRestore,
         AfterPurge, RecallItems, KeepVersions, VersionText;
    match e
    case Create(m, embedded) => CreateLeaves(s, m, embedded, x);
    case Bump(id, source, mirror, link, now) => BumpLeaves(s, id, source, mirror, link, now, x);
    case Update(id, text, source, now) => UpdateLeaves(s, id, text, source, now, x);
    case Rollback(id, v, now) => RollbackLeaves(s, id, v, now, x);
    case Pin(id, on, now) => PinLeaves(s, id, on, now, x);
    case Deprecate(id, action, now) => FlagLeaves(s, e, x);
    case Restore(id, now) => FlagLeaves(s, e, x);
    case Purge(id, action, now) => PurgeLeaves(s, id, action, now, x);
    case Recall(ids) => RecallLeaves(s, ids, x);
    case DropOrphans =>
      OrphansKeep(s);
      SameStore(s, x);
  }

  lemma SameStore(s: Store, x: nat)
    requires x in s.memories
    ensures SameRow(s, s, x)
  {
  }

  lemma RecallLeaves(s: Store, ids: seq<nat>, x: nat)
    requires x in s.memories
    ensures SameRow(s, Step(s, Recall(ids)), x)
  {
  }

  lemma CreateLeaves(s: Store, m: Memory, embedded: bool, x: nat)
    requires x in s.memories && x < s.nextId
    ensures SameRow(s, AfterCreate(s, m, embedded), x)
  {
    hide VersionsOf;
    VersionsSnoc(s.versions, Version(s.nextId, 1, m.text, None), x);
  }

  lemma BumpLeaves(s: Store, id: nat, source: SourceKind, mirror: bool, link: bool, now: int, x: nat)
    requires x in s.memories && x != id
    ensures SameRow(s, AfterBump(s, id, source, mirror, link, now), x)
  {
  }

  lemma UpdateLeaves(s: Store, id: nat, text: string, source: Option<SourceKind>, now: int, x: nat)
    requires x in s.memories && x != id
    ensures SameRow(s, AfterUpdate(s, id, text, source, now), x)
  {
    hide VersionsOf, MaxVersion;
    VersionsSnoc(s.versions, NextVersion(s.versions, id, text), x);
  }

  lemma RollbackLeaves(s: Store, id: nat, v: nat, now: int, x: nat)
    requires x in s.memories && x != id
    ensures SameRow(s, AfterRollback(s, id, v, now), x)
  {
    hide SameRow, AfterUpdate, VersionText;
    SameStore(s, x);
    var text := VersionText(s.versions, id, v);
    if text.Some? {
      UpdateLeaves(s, id, text.value, None, now, x);
    }
  }

  lemma PinLeaves(s: Store, id: nat, on: bool, now: int, x: nat)
    requires x in s.memories && x != id
    ensures SameRow(s, AfterPin(s, id, on, now), x)
  {
  }

  lemma FlagLeaves(s: Store, e: Event, x: nat)
    requires x in s.memories && (e.Deprecate? || e.Restore?) && x != e.id
    ensures SameRow(s, Step(s, e), x)
  {
  }

  lemma PurgeLeaves(s: Store, id: nat, action: string, now: int, x: nat)
    requires x in s.memories && x != id
    ensures SameRow(s, AfterPurge(s, id, action, now), x)
  {
    hide VersionsOf, DropVersions, DropLinks, DropItems, RowCount;
    DropKeepsOthers(s.versions, id, x);
  }

  /** A creation stores the row under a new id, its text as version 1, and a vector row with the
      same tier, status, trust and pin exactly when it was embedded. */
  lemma CreateStores(s: Store, m: Memory, embedded: bool)
    requires StoreOk(s)
    ensures var u := Step(s, Create(m, embedded));
            var id := s.nextId;
            && id !in s.memories && u.memories == s.memories[id := m]
            && VersionsOf(u.versions, id) == [Version(id, 1, m.text, None)]
            && (id in u.vectors <==> embedded)
            && (embedded ==> u.vectors[id].tier == m.tier && u.vectors[id].status == m.status
                             && u.vectors[id].trust == m.trust && u.vectors[id].pinned == m.pinned)
            && u.links == s.links && u.items == s.items && u.pins == s.pins && u.tombstones == s.tombstones
  {
    NoVersions(s.versions, s.nextId);
    VersionsSnoc(s.versions, Version(s.nextId, 1, m.text, None), s.nextId);
  }

  // ---- pins -------------------------------------------------------------------------------------

  /** Pinning and unpinning: the row, its vector copy and the ledger say the same afterwards, and
      nothing else about the row changes. */
  lemma PinIsExact(s: Store, id: nat, on: bool, now: int)
    requires id in s.memories
    ensures var u := Step(s, Pin(id, on, now));
            && u.memories == s.memories[id := u.memories[id]] && u.memories[id].pinned == on
            && u.memories[id] == s.memories[id].(pinned := on, updatedAt := now)
            && (id in s.vectors ==> id in u.vectors && u.vectors[id] == s.vectors[id].(pinned := on))
            && (id in u.pins <==> on) && (on ==> u.pins[id] == now)
            && u.versions == s.versions && u.audit == s.audit
  {
  }

  /** Tier and pin are never stale in the vector table: every operation that changes them there
      changes them here. */
  ghost predicate PinCopies(s: Store) {
    forall id :: id in s.vectors ==>
      id in s.memories && s.vectors[id].pinned == s.memories[id].pinned && s.vectors[id].tier == s.memories[id].tier
  }

  lemma StepKeepsPinCopies(s: Store, e: Event)
    requires PinCopies(s) && forall id :: id in s.memories ==> id < s.nextId
    ensures PinCopies(Step(s, e))
  {
  }

  /** The ledger holds exactly the pinned rows, as long as none was created pinned. */
  ghost predicate LedgerTrue(s: Store) {
    forall id :: id in s.memories ==> (s.memories[id].pinned <==> id in s.pins)
  }

  lemma StepKeepsLedger(s: Store, e: Event)
    requires LedgerTrue(s) && (e.Create? ==> !e.memory.pinned)
    requires s.pins.Keys <= s.memories.Keys && forall id :: id in s.memories ==> id < s.nextId
    ensures LedgerTrue(Step(s, e))
  {
  }

  /** Over every run: vector copies of pins agree with the rows, and if no row was imported
      pinned the ledger holds exactly the pinned rows. */
  lemma {:induction false} RunsKeepPins(s: Store, events: seq<Event>)
    requires StoreOk(s) && AllAllowed(s, events)
    ensures PinCopies(s) ==> PinCopies(Run(s, events))
    ensures LedgerTrue(s) && (forall k :: 0 <= k < |events| && events[k].Create? ==> !events[k].memory.pinned) ==>
              LedgerTrue(Run(s, events))
    decreases |events|
  {
    hide Step, PinCopies, LedgerTrue, Allowed, Chains, Provenance;
    if events != [] {
      StepKeepsStore(s, events[0]);
      if PinCopies(s) {
        StepKeepsPinCopies(s, events[0]);
      }
      if LedgerTrue(s) && !(events[0].Create? && events[0].memory.pinned) {
        StepKeepsLedger(s, events[0]);
      }
      RunsKeepPins(Step(s, events[0]), events[1..]);
    }
  }

  // ---- provenance -----------------------------------------------------------------------------------

  /** What applying a source does to a row: an untrusted source, or an untrusted row, makes it
      untrusted; the row records the new source unless it was untrusted before. */
  ghost predicate Provenanced(before: Memory, after: Memory, source: SourceKind) {
    && (after.trust == Untrusted <==>
          before.trust == Untrusted || !(source == User || source == Agent))
    && (after.trust != Untrusted ==> after.trust == if before.trust == System then System else Trusted)
    && after.source == (if before.trust == Untrusted then before.source else source)
  }

  /** A repeat counts once, merges its source and leaves the rest of the row alone; the vector copy
      follows when the path keeps vectors. */
  lemma BumpIsExact(s: Store, id: nat, source: SourceKind, mirror: bool, link: bool, now: int)
    requires id in s.memories
    ensures var u := Step(s, Bump(id, source, mirror, link, now));
            && id in u.memories && Provenanced(s.memories[id], u.memories[id], source)
            && u.memories[id] == s.memories[id].(trust := u.memories[id].trust, source := u.memories[id].source,
                                                 refCount := s.memories[id].refCount + 1, updatedAt := now)
            && (id in s.vectors ==>
                  id in u.vectors
                  && u.vectors[id] == if mirror then s.vectors[id].(trust := u.memories[id].trust) else s.vectors[id])
  {
  }

  /** An update replaces the text and, given a source, merges it; trust reaches the vector copy. */
  lemma UpdateIsExact(s: Store, id: nat, text: string, source: Option<SourceKind>, now: int)
    requires id in s.memories
    ensures var u := Step(s, Update(id, text, source, now));
            && id in u.memories
            && (source.Some? ==> Provenanced(s.memories[id], u.memories[id], source.value))
            && (source.None? ==>
                  u.memories[id].trust == s.memories[id].trust && u.memories[id].source == s.memories[id].source)
            && u.memories[id] == s.memories[id].(trust := u.memories[id].trust, source := u.memories[id].source,
                                                 text := text, updatedAt := now)
            && (id in s.vectors ==> id in u.vectors && u.vectors[id] == s.vectors[id].(trust := u.memories[id].trust))
            && u.links == s.links && u.pins == s.pins && u.audit == s.audit && u.tombstones == s.tombstones
  {
    hide MaxVersion;
  }

  // ---- deprecate and restore ------------------------------------------------------------------------

  /** Restoring undoes a deprecation of an active row, the time of the last change aside; in between
      the row is deprecated since the time it says. */
  lemma RestoreUndoesDeprecate(s: Store, id: nat, action: string, now: int, later: int)
    requires id in s.memories && s.memories[id].status == Active && s.memories[id].deletedAt == None
    ensures var d := Step(s, Deprecate(id, action, now));
            var u := Step(d, Restore(id, later));
            && id in d.memories && d.memories[id].status == Deprecated && d.memories[id].deletedAt == Some(now)
            && id in u.memories && u.memories[id] == s.memories[id].(updatedAt := later)
            && u == s.(memories := u.memories, audit := u.audit)
            && u.audit == s.audit + [Audit(action, s.memories[id].publicId, now),
                                     Audit("restore", s.memories[id].publicId, later)]
  {
  }

  /** Deprecating, restoring, pinning and repeats keep a row's text, versions and identity. */
  lemma FlagsKeepText(s: Store, e: Event, id: nat)
    requires id in s.memories && (e.Deprecate? || e.Restore? || e.Pin? || e.Bump?)
    ensures var u := Step(s, e);
            && id in u.memories && u.versions == s.versions
            && u.memories[id].text == s.memories[id].text && u.memories[id].publicId == s.memories[id].publicId
            && u.memories[id].tier == s.memories[id].tier && u.memories[id].agent == s.memories[id].agent
            && u.memories[id].createdAt == s.memories[id].createdAt
  {
  }

  // ---- reference counts and links ---------------------------------------------------------------------

  /** How often the events repeat row `id`. */
  function Repeats(events: seq<Event>, id: nat): (n: nat) {
    if events == [] then 0 else (if events[0].Bump? && events[0].id == id then 1 else 0) + Repeats(events[1..], id)
  }

  lemma StepCounts(s: Store, e: Event, id: nat)
    requires id in s.memories && id < s.nextId && id in Step(s, e).memories
    ensures Step(s, e).memories[id].refCount == s.memories[id].refCount + Repeats([e], id)
  {
    assert [e][1..] == [];
  }

  /** Over every run a live row's reference count has grown by exactly the repeats of its text. */
  lemma {:induction false} RefCountIsHistory(s: Store, events: seq<Event>, id: nat)
    requires id in s.memories && id < s.nextId && id in Run(s, events).memories
    ensures Run(s, events).memories[id].refCount == s.memories[id].refCount + Repeats(events, id)
    decreases |events|
  {
    hide Step;
    if events != [] {
      var u := Step(s, events[0]);
      NextIdGrows(s, events[0]);
      if id !in u.memories {
        GoneStaysGone(u, events[1..], id);
        assert false;
      }
      StepCounts(s, events[0], id);
      assert [events[0]][1..] == [];
      RefCountIsHistory(u, events[1..], id);
    }
  }

  ghost predicate LinkedOnce(links: seq<Link>) {
    forall i, j :: 0 <= i < j < |links| ==> links[i] != links[j]
  }

  lemma {:induction false} DropLinksOnce(links: seq<Link>, id: nat)
    requires LinkedOnce(links)
    ensures LinkedOnce(DropLinks(links, id))
    ensures forall l :: l in DropLinks(links, id) <==> l in links && l.from != id && l.to != id
  {
    if links != [] {
      var n := |links| - 1;
      DropLinksOnce(links[..n], id);
      assert links == links[..n] + [links[n]];
      assert links[n] !in links[..n];
    }
  }

  /** A repeat records its self-link once; a purge drops exactly the links of its row; nothing else
      touches links. */
  lemma StepLinks(s: Store, e: Event, l: Link)
    requires LinkedOnce(s.links)
    ensures LinkedOnce(Step(s, e).links)
    ensures l in Step(s, e).links <==>
              || (l in s.links && !(e.Purge? && e.id in s.memories && (l.from == e.id || l.to == e.id)))
              || (e.Bump? && e.link && e.id in s.memories && l == Link(e.id, e.id))
  {
    if e.Purge? {
      DropLinksOnce(s.links, e.id);
    }
  }

  // ---- the audit trail --------------------------------------------------------------------------------

  /** What a step adds to the audit trail: one entry naming the row for a deprecation, a restoration
      and a purge, nothing for anything else or for an unknown row. */
  lemma StepAudits(s: Store, e: Event)
    ensures var u := Step(s, e);
            if (e.Deprecate? || e.Restore? || e.Purge?) && e.id in s.memories then
              && |u.audit| == |s.audit| + 1 && s.audit <= u.audit
              && u.audit[|s.audit|].publicId == s.memories[e.id].publicId && u.audit[|s.audit|].at == e.now
              && u.audit[|s.audit|].action == (if e.Restore? then "restore" else e.action)
            else u.audit == s.audit
  {
    hide DropVersions, DropLinks, DropItems, RowCount, MaxVersion, VersionText;
  }

  lemma SnocCount(s: seq<nat>, y: nat, x: nat)
    ensures multiset(s + [y])[x] == multiset(s)[x] + (if x == y then 1 else 0)
  {
  }

  /** One entry for each returned row that still exists. */
  lemma {:induction false} RecallRecords(s: Store, ids: seq<nat>, x: nat)
    ensures multiset(RecallItems(s, ids))[x] == if x in s.memories then multiset(ids)[x] else 0
  {
    if ids != [] {
      var n := |ids| - 1;
      RecallRecords(s, ids[..n], x);
      assert ids == ids[..n] + [ids[n]];
      var front := RecallItems(s, ids[..n]);
      assert front + [] == front;
      SnocCount(front, ids[n], x);
      SnocCount(ids[..n], ids[n], x);
    }
  }

  /** A purge drops exactly the recall entries of its row. */
  lemma {:induction false} DropItemsExactly(items: seq<nat>, id: nat, x: nat)
    ensures multiset(DropItems(items, id))[x] == if x == id then 0 else multiset(items)[x]
  {
    if items != [] {
      var n := |items| - 1;
      DropItemsExactly(items[..n], id, x);
      assert items == items[..n] + [items[n]];
      var front := DropItems(items[..n], id);
      assert front + [] == front;
      SnocCount(front, items[n], x);
      SnocCount(items[..n], items[n], x);
    }
  }
}
