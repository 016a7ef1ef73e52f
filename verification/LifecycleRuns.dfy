/** What holds over every run of the memory lifecycle: trust as history, version chains
    that only grow, purged rows and tombstoned ids that never come back, and when the
    vector metadata agrees with the canonical row. */
module LifecycleRuns {
  import opened Wrappers
  import opened RecallTypes
  import opened Lifecycle
  import Filter

  // ---- trust as history ---------------------------------------------------------------------------

  /** Sources applied to each row so far. */
  type History = map<nat, seq<SourceKind>>

  ghost function HistoryStep(h: History, s: Store, e: Event): History {
    match e
    case Create(m, _) => h[s.nextId := [m.source]]
    case Bump(id, source, _, _, _) => if id in s.memories && id in h then h[id := h[id] + [source]] else h
    case Update(id, _, source, _) =>
      if id in s.memories && id in h && source.Some? then h[id := h[id] + [source.value]] else h
    case _ => h
  }

  ghost function HistoryRun(h: History, s: Store, events: seq<Event>): History
    decreases |events|
  {
    if events == [] then h else HistoryRun(HistoryStep(h, s, events[0]), Step(s, events[0]), events[1..])
  }

  /** A row is untrusted exactly when some source ever applied to it was. */
  ghost predicate Explains(h: History, s: Store) {
    forall id :: id in s.memories ==> id in h && h[id] != [] && (s.memories[id].trust == Untrusted <==> Tainted(h[id]))
  }

  lemma TaintSnoc(sources: seq<SourceKind>, k: SourceKind)
    ensures Tainted(sources + [k]) <==> Tainted(sources) || TrustOf(k) == Untrusted
  {
    if Tainted(sources) {
      var i :| 0 <= i < |sources| && TrustOf(sources[i]) == Untrusted;
      assert (sources + [k])[i] == sources[i];
    }
    if TrustOf(k) == Untrusted {
      assert (sources + [k])[|sources|] == k;
    }
  }

  lemma StepKeepsHistory(h: History, s: Store, e: Event)
    requires Explains(h, s) && Allowed(s, e) && Identities(s.memories, s.tombstones, s.nextId)
    ensures Explains(HistoryStep(h, s, e), Step(s, e))
  {
    hide Allowed, Identities, VersionText, MaxVersion;
    match e
    case Create(m, embedded) => CreateKeepsHistory(h, s, m, embedded);
    case Bump(id, source, mirror, link, now) =>
      if id in s.memories {
        TaintSnoc(h[id], source);
      }
    case Update(id, text, source, now) =>
      if id in s.memories && source.Some? {
        TaintSnoc(h[id], source.value);
      }
    case Rollback(id, v, now) =>
    case Pin(id, _, _) =>
    case Deprecate(id, _, _) =>
    case Restore(id, _) =>
    case Purge(id, _, _) =>
    case Recall(_) =>
    case DropOrphans =>
  }

  lemma CreateKeepsHistory(h: History, s: Store, m: Memory, embedded: bool)
    requires Explains(h, s) && Allowed(s, Create(m, embedded)) && Identities(s.memories, s.tombstones, s.nextId)
    ensures Explains(h[s.nextId := [m.source]], AfterCreate(s, m, embedded))
  {
    TaintSnoc([], m.source);
    assert [] + [m.source] == [m.source];
  }

  /** Over every run from the empty store: untrusted exactly when some applied source was
      untrusted, equivalently when the recorded source is an untrusted kind. */
  lemma TrustIsHistory(events: seq<Event>, id: nat)
    requires AllAllowed(EMPTY, events)
    ensures var s := Run(EMPTY, events);
            var h := HistoryRun(map[], EMPTY, events);
            id in s.memories ==>
              && id in h
              && (s.memories[id].trust == Untrusted <==> Tainted(h[id]))
              && (s.memories[id].trust == Untrusted <==> TrustOf(s.memories[id].source) == Untrusted)
  {
    EmptyStoreOk();
    RunsKeepStore(EMPTY, events);
    RunKeepsHistory(map[], EMPTY, events);
  }

  lemma {:induction false} RunKeepsHistory(h: History, s: Store, events: seq<Event>)
    requires Explains(h, s) && StoreOk(s) && AllAllowed(s, events)
    ensures Explains(HistoryRun(h, s, events), Run(s, events))
    decreases |events|
  {
    hide Explains, Refs, Identities, Chains, Provenance, Allowed, Step, HistoryStep;
    if events != [] {
      StepKeepsStore(s, events[0]);
      StepKeepsHistory(h, s, events[0]);
      RunKeepsHistory(HistoryStep(h, s, events[0]), Step(s, events[0]), events[1..]);
    }
  }

  /** No step upgrades a row; rollback, pin, deprecate, restore, recall, purges of other
      rows and updates without a source leave trust and recorded source as they were. */
  lemma StepNeverUpgrades(s: Store, e: Event, id: nat)
    requires id in s.memories && id < s.nextId
    ensures id in Step(s, e).memories ==>
              var before, after := s.memories[id], Step(s, e).memories[id];
              && (before.trust == Untrusted ==> after.trust == Untrusted && after.source == before.source)
              && (!e.Bump? && !(e.Update? && e.provenance.Some?) ==>
                    after.trust == before.trust && after.source == before.source)
  {
  }

  // ---- version chains -----------------------------------------------------------------------------

  lemma StepExtendsChain(s: Store, e: Event, id: nat)
    requires StoreOk(s) && id in s.memories && id in Step(s, e).memories
    ensures VersionsOf(s.versions, id) <= VersionsOf(Step(s, e).versions, id)
  {
    hide StoreOk, VersionsOf, MaxVersion, VersionText, DropVersions, KeepVersions, RowCount;
    match e
    case Create(m, _) => VersionsSnoc(s.versions, Version(s.nextId, 1, m.text, None), id);
    case Update(x, text, _, _) => VersionsSnoc(s.versions, NextVersion(s.versions, x, text), id);
    case Rollback(x, v, _) =>
      var text := VersionText(s.versions, x, v);
      if text.Some? {
        VersionsSnoc(s.versions, NextVersion(s.versions, x, text.value), id);
      }
    case Purge(x, _, _) => DropKeepsOthers(s.versions, x, id);
    case DropOrphans => OrphansKeep(s);
    case _ =>
  }

  lemma StepsKeepGone(s: Store, e: Event, id: nat)
    requires id !in s.memories && id < s.nextId
    ensures id !in Step(s, e).memories && id < Step(s, e).nextId
  {
  }

  /** A row that is gone stays gone: ids are never reused. */
  lemma {:induction false} GoneStaysGone(s: Store, events: seq<Event>, id: nat)
    requires id !in s.memories && id < s.nextId
    ensures id !in Run(s, events).memories
    decreases |events|
  {
    hide Step;
    if events != [] {
      StepsKeepGone(s, events[0], id);
      GoneStaysGone(Step(s, events[0]), events[1..], id);
    }
  }

  /** Old versions never change: as long as a row lives, its chain only grows. */
  lemma {:induction false} ChainsOnlyGrow(s: Store, events: seq<Event>, id: nat)
    requires StoreOk(s) && AllAllowed(s, events) && id in s.memories && id in Run(s, events).memories
    ensures VersionsOf(s.versions, id) <= VersionsOf(Run(s, events).versions, id)
    decreases |events|
  {
    hide VersionsOf, Step, Allowed, Refs, Chains, Provenance;
    if events != [] {
      var u := Step(s, events[0]);
      StepKeepsStore(s, events[0]);
      if id in u.memories {
        StepExtendsChain(s, events[0], id);
        ChainsOnlyGrow(u, events[1..], id);
      } else {
        NextIdGrows(s, events[0]);
        GoneStaysGone(u, events[1..], id);
      }
    }
  }

  lemma NextIdGrows(s: Store, e: Event)
    ensures s.nextId <= Step(s, e).nextId
  {
  }

  /** A rollback appends a copy of the target version; its text is that text again. */
  lemma RollbackAppendsCopy(s: Store, id: nat, v: nat, now: int)
    requires StoreOk(s) && id in s.memories
    ensures var chain := VersionsOf(s.versions, id);
            var u := AfterRollback(s, id, v, now);
            if 1 <= v <= |chain| then
              && id in u.memories && u.memories[id].text == chain[v - 1].text
              && VersionsOf(u.versions, id) == chain + [Version(id, |chain| + 1, chain[v - 1].text, Some(|chain|))]
              && u.memories[id].trust == s.memories[id].trust && u.memories[id].source == s.memories[id].source
            else u == s
  {
    assert HasChain(s.versions, id, s.memories[id].text);
    ChainFacts(s.versions, id, v);
    var chain := VersionsOf(s.versions, id);
    if 1 <= v <= |chain| {
      UpdateExtendsChain(s, id, chain[v - 1].text, None, now);
    }
  }

  // ---- tombstones ---------------------------------------------------------------------------------

  lemma {:induction false} TombstonesStay(s: Store, events: seq<Event>)
    ensures s.tombstones <= Run(s, events).tombstones
    decreases |events|
  {
    if events != [] {
      StepKeepsTombstones(s, events[0]);
      TombstonesStay(Step(s, events[0]), events[1..]);
    }
  }

  lemma StepKeepsTombstones(s: Store, e: Event)
    ensures s.tombstones <= Step(s, e).tombstones
  {
  }

  /** A tombstoned public id is never live again. */
  lemma TombstonedStaysOut(s: Store, events: seq<Event>, publicId: string)
    requires StoreOk(s) && AllAllowed(s, events) && Tombstoned(s.tombstones, publicId)
    ensures !Live(Run(s, events).memories, publicId)
  {
    RunsKeepStore(s, events);
    TombstonesStay(s, events);
    var u := Run(s, events);
    var i :| 0 <= i < |s.tombstones| && s.tombstones[i].publicId == publicId;
    assert u.tombstones[i].publicId == publicId;
    assert Tombstoned(u.tombstones, publicId);
  }

  // ---- the vector metadata mirror -------------------------------------------------------------------

  ghost predicate Mirror(s: Store) {
    forall id :: id in s.vectors ==>
      id in s.memories && s.vectors[id] == CopyOf(s.memories[id])
  }

  predicate Embedded(s: Store, id: nat) {
    id in s.vectors && id in s.memories
  }

  /** The steps that leave a stale copy, all on a row that has a vector: a repeat on the path
      without vectors that lowers its trust, and a deprecation or restoration that changes its
      status, which no operation writes to the vector table after creation. */
  ghost predicate Stales(s: Store, e: Event) {
    match e
    case Bump(id, source, mirror, _, _) =>
      Embedded(s, id) && !mirror && TrustAfter(s.memories[id].trust, source) != s.memories[id].trust
    case Deprecate(id, _, _) => Embedded(s, id) && s.memories[id].status != Deprecated
    case Restore(id, _) => Embedded(s, id) && s.memories[id].status != Active
    case _ => false
  }

  lemma MirrorKeptExactly(s: Store, e: Event)
    requires StoreOk(s) && Mirror(s) && Allowed(s, e)
    ensures Mirror(Step(s, e)) <==> !Stales(s, e)
  {
    hide Allowed, Chains, Provenance, VersionText, MaxVersion;
    match e
    case Create(m, embedded) => MirrorAfterCreate(s, m, embedded);
    case Bump(id, source, mirror, link, now) => MirrorAfterBump(s, id, source, mirror, link, now);
    case Update(id, text, source, now) =>
    case Rollback(id, v, now) =>
    case Pin(id, _, _) =>
    case Deprecate(id, _, _) => MirrorAfterFlag(s, e);
    case Restore(id, _) => MirrorAfterFlag(s, e);
    case Purge(id, _, _) =>
    case Recall(_) =>
    case DropOrphans =>
  }

  lemma MirrorAfterFlag(s: Store, e: Event)
    requires Mirror(s) && (e.Deprecate? || e.Restore?)
    ensures Mirror(Step(s, e)) <==> !Stales(s, e)
  {
    var u := Step(s, e);
    if Stales(s, e) {
      assert u.vectors[e.id].status == s.memories[e.id].status && u.memories[e.id].status != s.memories[e.id].status;
    }
  }

  lemma MirrorAfterCreate(s: Store, m: Memory, embedded: bool)
    requires Mirror(s) && Identities(s.memories, s.tombstones, s.nextId) && Refs(s)
    ensures Mirror(AfterCreate(s, m, embedded))
  {
  }

  lemma MirrorAfterBump(s: Store, id: nat, source: SourceKind, mirror: bool, link: bool, now: int)
    requires Mirror(s)
    ensures Mirror(AfterBump(s, id, source, mirror, link, now)) <==> !Stales(s, Bump(id, source, mirror, link, now))
  {
    var u := AfterBump(s, id, source, mirror, link, now);
    if Stales(s, Bump(id, source, mirror, link, now)) {
      assert u.vectors[id].trust == s.memories[id].trust && u.memories[id].trust != s.memories[id].trust;
    }
  }

  lemma RunTwo(s: Store, a: Event, b: Event)
    ensures Run(s, [a, b]) == Step(Step(s, a), b)
    ensures AllAllowed(s, [a, b]) <==> Allowed(s, a) && Allowed(Step(s, a), b)
  {
    hide Step, Allowed;
    assert [a, b][1..] == [b];
    RunJust(Step(s, a), b);
  }

  /** A trusted embedded row repeated by a web source is left marked trusted. */
  lemma StaleTrustRun()
    ensures var m := Memory("a", "agent", Episodic, "text", Active, Trusted, User, false, 0, 0, 0, None);
            var events := [Create(m, true), Bump(1, Web, false, true, 0)];
            && AllAllowed(EMPTY, events)
            && Run(EMPTY, events).memories[1].trust == Untrusted && Run(EMPTY, events).vectors[1].trust == Trusted
  {
    var m := Memory("a", "agent", Episodic, "text", Active, Trusted, User, false, 0, 0, 0, None);
    RunTwo(EMPTY, Create(m, true), Bump(1, Web, false, true, 0));
  }

  /** The part of the hard filter the vector leg evaluates, on the copies. */
  predicate LegSees(f: Filter.HardFilter, v: Vector) {
    v.tier in f.tiers && v.status in f.statuses && v.trust in f.trusts
  }

  /** A pending embedded row that is approved by restoring it stays pending in the vector table:
      a query that does not ask for pending rows would accept the row but its vector leg skips it. */
  lemma StaleStatusRun(clock: int)
    ensures var m := Memory("a", "agent", Semantic, "text", Pending, Trusted, User, false, 0, 0, 0, None);
            var events := [Create(m, true), Restore(1, 0)];
            var s := Run(EMPTY, events);
            var f := Filter.FromQuery("agent", true, false, Filter.Fenced, clock);
            && AllAllowed(EMPTY, events)
            && s.memories[1].status == Active && s.vectors[1].status == Pending
            && LegSees(f, CopyOf(s.memories[1])) && !LegSees(f, s.vectors[1])
  {
    var m := Memory("a", "agent", Semantic, "text", Pending, Trusted, User, false, 0, 0, 0, None);
    RunTwo(EMPTY, Create(m, true), Restore(1, 0));
  }

  lemma StepFreezesStatus(s: Store, e: Event, id: nat)
    requires id < s.nextId
    ensures id in Step(s, e).vectors ==>
              id in s.vectors && Step(s, e).vectors[id].status == s.vectors[id].status
  {
  }

  /** Over any run the status a vector row carries is the one the row was created with, so
      it agrees with the canonical row exactly when the latter has come back to it. */
  lemma {:induction false} StatusCopyIsFrozen(s: Store, events: seq<Event>, id: nat)
    requires id < s.nextId && id in Run(s, events).vectors
    ensures id in s.vectors && Run(s, events).vectors[id].status == s.vectors[id].status
    decreases |events|
  {
    hide Step;
    if events != [] {
      NextIdGrows(s, events[0]);
      StatusCopyIsFrozen(Step(s, events[0]), events[1..], id);
      StepFreezesStatus(s, events[0], id);
    }
  }

  // ---- other callers between the two writes of a purge -----------------------------------------------

  lemma EraseKeeps(s: Store, id: nat)
    requires StoreOk(s)
    ensures StoreOk(AfterErase(s, id))
  {
    hide HasChain, Tombstoned, DropVersions, DropLinks, DropItems, VersionRefs, LinkRefs, ItemRefs;
    VersionRefsDropped(s.versions, id, s.memories);
    LinkRefsDropped(s.links, id, s.memories);
    ItemRefsDropped(s.items, id, s.memories);
    PurgeKeepsChains(s.versions, s.memories, id);
  }

  /** Recording the tombstone keeps the store consistent exactly when the id is not live again. */
  lemma RecordKeepsExactly(s: Store, tomb: Tombstone, action: string)
    requires StoreOk(s)
    ensures StoreOk(AfterRecord(s, tomb, action)) <==> !Live(s.memories, tomb.publicId)
  {
    hide VersionRefs, LinkRefs, ItemRefs, Chains, Provenance;
    var u := AfterRecord(s, tomb, action);
    assert u.tombstones[|s.tombstones|] == tomb && Tombstoned(u.tombstones, tomb.publicId);
    forall id | id in s.memories && s.memories[id].publicId != tomb.publicId
      ensures !Tombstoned(u.tombstones, s.memories[id].publicId)
    {
      assert !Tombstoned(s.tombstones, s.memories[id].publicId);
    }
  }

  /** Whatever other callers run between the two writes, the purge ends consistently exactly
      when none of them has made the purged public id live again. */
  lemma InterleavedPurge(s: Store, id: nat, others: seq<Event>, action: string, now: int)
    requires StoreOk(s) && id in s.memories && AllAllowed(AfterErase(s, id), others)
    ensures var mid := Run(AfterErase(s, id), others);
            && StoreOk(mid)
            && (StoreOk(AfterRecord(mid, TombstoneFor(s, id, now), action))
                <==> !Live(mid.memories, s.memories[id].publicId))
  {
    hide StoreOk, AfterErase, AfterRecord, RowCount, Live;
    EraseKeeps(s, id);
    RunsKeepStore(AfterErase(s, id), others);
    RecordKeepsExactly(Run(AfterErase(s, id), others), TombstoneFor(s, id, now), action);
  }

  /** An import of the purged public id in between is allowed, and leaves it live and tombstoned. */
  lemma ReimportDuringPurge()
    ensures var m := Memory("a", "agent", Episodic, "text", Active, Trusted, User, false, 0, 0, 0, None);
            var s := AfterCreate(EMPTY, m, true);
            var mid := Run(AfterErase(s, 1), [Create(m, true)]);
            var u := AfterRecord(mid, TombstoneFor(s, 1, 0), "hard_delete");
            && AllAllowed(EMPTY, [Create(m, true)]) && AllAllowed(AfterErase(s, 1), [Create(m, true)])
            && Live(u.memories, "a") && Tombstoned(u.tombstones, "a") && !StoreOk(u)
  {
    var m := Memory("a", "agent", Episodic, "text", Active, Trusted, User, false, 0, 0, 0, None);
    var create := Create(m, true);
    var s := AfterCreate(EMPTY, m, true);
    RunJust(EMPTY, create);
    EmptyStoreOk();
    StepKeepsStore(EMPTY, create);
    RunJust(AfterErase(s, 1), create);
    InterleavedPurge(s, 1, [create], "hard_delete", 0);
    var mid := Run(AfterErase(s, 1), [create]);
    assert mid.memories[2].publicId == "a";
    var u := AfterRecord(mid, TombstoneFor(s, 1, 0), "hard_delete");
    assert u.tombstones[0].publicId == "a";
  }

  lemma RunJust(s: Store, e: Event)
    ensures Run(s, [e]) == Step(s, e) && (AllAllowed(s, [e]) <==> Allowed(s, e))
  {
    hide Step, Allowed;
    assert [e][1..] == [];
    assert Run(Step(s, e), []) == Step(s, e);
    assert AllAllowed(Step(s, e), []);
  }
}
