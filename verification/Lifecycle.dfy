/** The memory lifecycle as one state machine over the tables it must keep consistent:
    remember, repeat, update, rollback, pin, deprecate, restore, recall and purge. */
module Lifecycle {
  import opened Wrappers
  import opened RecallTypes

  datatype SourceKind = User | Agent | Tool | File | Web | Import

  // ---- provenance -----------------------------------------------------------------------------

  function TrustOf(source: SourceKind): Trust {
    if source == User || source == Agent then Trusted else Untrusted
  }

  function TrustAfter(current: Trust, source: SourceKind): Trust {
    if current == Untrusted || TrustOf(source) == Untrusted then Untrusted
    else if current == System then System
    else Trusted
  }

  /** Trust of a row after each of these sources in turn. */
  function TrustAfterAll(current: Trust, sources: seq<SourceKind>): Trust {
    if sources == [] then current else
      TrustAfter(TrustAfterAll(current, sources[..|sources| - 1]), sources[|sources| - 1])
  }

  ghost predicate Tainted(sources: seq<SourceKind>) {
    exists i :: 0 <= i < |sources| && TrustOf(sources[i]) == Untrusted
  }

  /** The merge is the join of a two-point order: one untrusted source, anywhere in the
      history, decides. */
  lemma {:induction false} MergedTrust(current: Trust, sources: seq<SourceKind>)
    ensures TrustAfterAll(current, sources) == Untrusted <==> current == Untrusted || Tainted(sources)
    ensures !Tainted(sources) && sources != [] && current != Untrusted ==>
              TrustAfterAll(current, sources) == if current == System then System else Trusted
  {
    if sources != [] {
      var n := |sources| - 1;
      var front := sources[..n];
      MergedTrust(current, front);
      if Tainted(front) {
        var i :| 0 <= i < n && TrustOf(front[i]) == Untrusted;
        assert sources[i] == front[i];
      } else if TrustOf(sources[n]) != Untrusted {
        assert forall i :: 0 <= i < n ==> sources[i] == front[i];
      }
    }
  }

  /** The order of the sources does not matter. */
  lemma TrustForgetsOrder(current: Trust, a: seq<SourceKind>, b: seq<SourceKind>)
    requires multiset(a) == multiset(b)
    ensures TrustAfterAll(current, a) == TrustAfterAll(current, b)
  {
    MergedTrust(current, a);
    MergedTrust(current, b);
    assert |a| == |multiset(a)| && |b| == |multiset(b)|;
    SameBagSameTaint(a, b);
    SameBagSameTaint(b, a);
  }

  lemma SameBagSameTaint(a: seq<SourceKind>, b: seq<SourceKind>)
    requires multiset(a) == multiset(b)
    ensures Tainted(a) ==> Tainted(b)
  {
    if Tainted(a) {
      var i :| 0 <= i < |a| && TrustOf(a[i]) == Untrusted;
      assert a[i] in multiset(b);
      var j :| 0 <= j < |b| && b[j] == a[i];
    }
  }

  // ---- tables -----------------------------------------------------------------------------------

  datatype Memory = Memory(
    publicId: string, agent: string, tier: Tier, text: string, status: Status, trust: Trust, source: SourceKind,
    pinned: bool, refCount: nat, createdAt: int, updatedAt: int, deletedAt: Option<int>)

  datatype Version = Version(memory: nat, number: nat, text: string, supersedes: Option<nat>)

  datatype Link = Link(from: nat, to: nat)

  /** Metadata columns of the vector table, copied from the canonical row; the vector leg
      filters on tier, status and trust. */
  datatype Vector = Vector(tier: Tier, status: Status, trust: Trust, pinned: bool)

  function CopyOf(m: Memory): Vector {
    Vector(m.tier, m.status, m.trust, m.pinned)
  }

  datatype Tombstone = Tombstone(publicId: string, memory: nat, rows: nat, deletedAt: int)

  datatype Audit = Audit(action: string, publicId: string, at: int)

  /** One value per table; `items` are the memory columns of `recall_items`, and ids are
      never used twice. */
  datatype Store = Store(
    memories: map<nat, Memory>, versions: seq<Version>, links: seq<Link>, items: seq<nat>, pins: map<nat, int>,
    vectors: map<nat, Vector>, tombstones: seq<Tombstone>, audit: seq<Audit>, nextId: nat)

  const EMPTY := Store(map[], [], [], [], map[], map[], [], [], 1)

  // ---- versions ---------------------------------------------------------------------------------

  function VersionsOf(vs: seq<Version>, id: nat): (chain: seq<Version>) {
    if vs == [] then [] else
      var n := |vs| - 1;
      VersionsOf(vs[..n], id) + (if vs[n].memory == id then [vs[n]] else [])
  }

  function MaxVersion(vs: seq<Version>, id: nat): (v: nat) {
    if vs == [] then 0 else
      var n := |vs| - 1;
      var m := MaxVersion(vs[..n], id);
      if vs[n].memory == id && vs[n].number > m then vs[n].number else m
  }

  function VersionText(vs: seq<Version>, id: nat, v: nat): (text: Option<string>) {
    if vs == [] then None else
      var n := |vs| - 1;
      var before := VersionText(vs[..n], id, v);
      if before.Some? then before else if vs[n].memory == id && vs[n].number == v then Some(vs[n].text) else None
  }

  function DropVersions(vs: seq<Version>, id: nat): (r: seq<Version>)
    ensures |r| <= |vs|
  {
    if vs == [] then [] else
      var n := |vs| - 1;
      DropVersions(vs[..n], id) + (if vs[n].memory == id then [] else [vs[n]])
  }

  ghost predicate ChainOk(chain: seq<Version>) {
    forall i :: 0 <= i < |chain| ==>
      chain[i].number == i + 1 && chain[i].supersedes == if i == 0 then None else Some(i)
  }

  lemma VersionsSnoc(vs: seq<Version>, v: Version, id: nat)
    ensures VersionsOf(vs + [v], id) == VersionsOf(vs, id) + (if v.memory == id then [v] else [])
  {
    assert (vs + [v])[..|vs|] == vs;
  }

  lemma {:induction false} DropKeepsOthers(vs: seq<Version>, gone: nat, id: nat)
    ensures id != gone ==> VersionsOf(DropVersions(vs, gone), id) == VersionsOf(vs, id)
    ensures VersionsOf(DropVersions(vs, gone), gone) == []
    ensures |DropVersions(vs, gone)| + |VersionsOf(vs, gone)| == |vs|
  {
    if vs != [] {
      var n := |vs| - 1;
      DropKeepsOthers(vs[..n], gone, id);
      DropKeepsOthers(vs[..n], gone, gone);
      if vs[n].memory != gone {
        VersionsSnoc(DropVersions(vs[..n], gone), vs[n], id);
        VersionsSnoc(DropVersions(vs[..n], gone), vs[n], gone);
      } else {
        assert DropVersions(vs, gone) == DropVersions(vs[..n], gone);
      }
    }
  }

  lemma {:induction false} NoVersions(vs: seq<Version>, id: nat)
    requires forall i :: 0 <= i < |vs| ==> vs[i].memory != id
    ensures VersionsOf(vs, id) == []
  {
    if vs != [] {
      NoVersions(vs[..|vs| - 1], id);
    }
  }

  lemma {:induction false} DroppedAreGone(vs: seq<Version>, gone: nat, i: nat)
    requires i < |DropVersions(vs, gone)|
    ensures DropVersions(vs, gone)[i].memory != gone
    ensures exists j :: 0 <= j < |vs| && vs[j] == DropVersions(vs, gone)[i]
  {
    var n := |vs| - 1;
    if i < |DropVersions(vs[..n], gone)| {
      DroppedAreGone(vs[..n], gone, i);
      var j :| 0 <= j < n && vs[..n][j] == DropVersions(vs[..n], gone)[i];
      assert vs[j] == DropVersions(vs, gone)[i];
    } else {
      assert vs[n] == DropVersions(vs, gone)[i];
    }
  }

  /** In a chain the highest version number is its length, and version `v` is entry `v - 1`. */
  lemma {:induction false} ChainFacts(vs: seq<Version>, id: nat, v: nat)
    requires ChainOk(VersionsOf(vs, id))
    ensures MaxVersion(vs, id) == |VersionsOf(vs, id)|
    ensures VersionText(vs, id, v) == if 1 <= v <= |VersionsOf(vs, id)| then Some(VersionsOf(vs, id)[v - 1].text)
              else None
  {
    if vs != [] {
      var n := |vs| - 1;
      var front, chain := VersionsOf(vs[..n], id), VersionsOf(vs, id);
      assert ChainOk(front) by {
        assert forall i :: 0 <= i < |front| ==> front[i] == chain[i];
      }
      ChainFacts(vs[..n], id, v);
      if vs[n].memory == id {
        assert chain[|front|] == vs[n];
      }
    }
  }

  // ---- steps --------------------------------------------------------------------------------------

  predicate Live(memories: map<nat, Memory>, publicId: string) {
    exists id :: id in memories && memories[id].publicId == publicId
  }

  predicate Tombstoned(tombstones: seq<Tombstone>, publicId: string) {
    exists i :: 0 <= i < |tombstones| && tombstones[i].publicId == publicId
  }

  /** A new row with its first version, and a vector row if it was embedded. */
  function AfterCreate(s: Store, m: Memory, embedded: bool): Store {
    var id := s.nextId;
    s.(memories := s.memories[id := m],
       versions := s.versions + [Version(id, 1, m.text, None)],
       vectors := if embedded then s.vectors[id := CopyOf(m)] else s.vectors,
       nextId := id + 1)
  }

  /** Provenance merged into a row: an untrusted row keeps its recorded source. */
  function Merged(m: Memory, source: SourceKind): Memory {
    m.(trust := TrustAfter(m.trust, source), source := if m.trust == Untrusted then m.source else source)
  }

  function AddLink(links: seq<Link>, l: Link): (r: seq<Link>) {
    if l in links then links else links + [l]
  }

  /** A repeat of a known text. `mirror` updates the vector row, `link` records the
      self-link; the paths that call this differ only in those two. */
  function AfterBump(s: Store, id: nat, source: SourceKind, mirror: bool, link: bool, now: int): Store {
    if id !in s.memories then s else
      var m := Merged(s.memories[id], source).(refCount := s.memories[id].refCount + 1, updatedAt := now);
      s.(memories := s.memories[id := m],
         vectors := if mirror && id in s.vectors then s.vectors[id := s.vectors[id].(trust := m.trust)] else s.vectors,
         links := if link then AddLink(s.links, Link(id, id)) else s.links)
  }

  function NextVersion(vs: seq<Version>, id: nat, text: string): Version {
    var current := MaxVersion(vs, id);
    Version(id, current + 1, text, if current > 0 then Some(current) else None)
  }

  /** A new version; without a source the provenance is left as it is. An unknown id
      violates the foreign key, so nothing happens. */
  function AfterUpdate(s: Store, id: nat, text: string, source: Option<SourceKind>, now: int): Store {
    if id !in s.memories then s else
      var m := (if source.Some? then Merged(s.memories[id], source.value) else s.memories[id]).(text := text,
          updatedAt := now);
      s.(memories := s.memories[id := m],
         versions := s.versions + [NextVersion(s.versions, id, text)],
         vectors := if id in s.vectors then s.vectors[id := s.vectors[id].(trust := m.trust)] else s.vectors)
  }

  function AfterRollback(s: Store, id: nat, version: nat, now: int): Store {
    var text := VersionText(s.versions, id, version);
    if text.None? then s else AfterUpdate(s, id, text.value, None, now)
  }

  function AfterPin(s: Store, id: nat, on: bool, now: int): Store {
    if id !in s.memories then s else
      s.(memories := s.memories[id := s.memories[id].(pinned := on, updatedAt := now)],
         vectors := if id in s.vectors then s.vectors[id := s.vectors[id].(pinned := on)] else s.vectors,
         pins := if on then s.pins[id := now] else s.pins - {id})
  }

  function AfterDeprecate(s: Store, id: nat, action: string, now: int): Store {
    if id !in s.memories then s else
      s.(memories := s.memories[id := s.memories[id].(status := Deprecated, deletedAt := Some(now), updatedAt := now)],
         audit := s.audit + [Audit(action, s.memories[id].publicId, now)])
  }

  function AfterRestore(s: Store, id: nat, now: int): Store {
    if id !in s.memories then s else
      s.(memories := s.memories[id := s.memories[id].(status := Active, deletedAt := None, updatedAt := now)],
         audit := s.audit + [Audit("restore", s.memories[id].publicId, now)])
  }

  function DropLinks(links: seq<Link>, id: nat): (r: seq<Link>)
    ensures |r| <= |links|
  {
    if links == [] then [] else
      var n := |links| - 1;
      DropLinks(links[..n], id) + (if links[n].from == id || links[n].to == id then [] else [links[n]])
  }

  function DropItems(items: seq<nat>, id: nat): (r: seq<nat>)
    ensures |r| <= |items|
  {
    if items == [] then [] else
      var n := |items| - 1;
      DropItems(items[..n], id) + (if items[n] == id then [] else [items[n]])
  }

  /** Rows of `id` in all the tables, the canonical row included. */
  function RowCount(s: Store, id: nat): nat {
    1 + (|s.versions| - |DropVersions(s.versions, id)|) + (|s.links| - |DropLinks(s.links, id)|)
      + (|s.items| - |DropItems(s.items, id)|) + (if id in s.pins then 1 else 0) + (if id in s.vectors then 1 else 0)
  }

  /** The first write of a purge: delete the row and everything that references it. */
  function AfterErase(s: Store, id: nat): Store {
    s.(memories := s.memories - {id}, versions := DropVersions(s.versions, id), links := DropLinks(s.links, id),
       items := DropItems(s.items, id), pins := s.pins - {id}, vectors := s.vectors - {id})
  }

  /** Its last write: the tombstone and the audit row. */
  function AfterRecord(s: Store, tomb: Tombstone, action: string): Store {
    s.(tombstones := s.tombstones + [tomb], audit := s.audit + [Audit(action, tomb.publicId, tomb.deletedAt)])
  }

  function TombstoneFor(s: Store, id: nat, now: int): Tombstone
    requires id in s.memories
  {
    Tombstone(s.memories[id].publicId, id, RowCount(s, id), now)
  }

  /** A completed purge. */
  function AfterPurge(s: Store, id: nat, action: string, now: int): Store {
    if id !in s.memories then s else AfterRecord(AfterErase(s, id), TombstoneFor(s, id, now), action)
  }

  /** Recall audit: rows purged in between are skipped. */
  function RecallItems(s: Store, ids: seq<nat>): (r: seq<nat>)
    ensures forall i :: 0 <= i < |r| ==> r[i] in s.memories
  {
    if ids == [] then [] else
      var n := |ids| - 1;
      RecallItems(s, ids[..n]) + (if ids[n] in s.memories then [ids[n]] else [])
  }

  function KeepVersions(vs: seq<Version>, memories: map<nat, Memory>): (r: seq<Version>) {
    if vs == [] then [] else
      var n := |vs| - 1;
      KeepVersions(vs[..n], memories) + (if vs[n].memory in memories then [vs[n]] else [])
  }

  datatype Event =
    | Create(memory: Memory, embedded: bool)
    | Bump(id: nat, source: SourceKind, mirror: bool, link: bool, now: int)
    | Update(id: nat, text: string, provenance: Option<SourceKind>, now: int)
    | Rollback(id: nat, version: nat, now: int)
    | Pin(id: nat, on: bool, now: int)
    | Deprecate(id: nat, action: string, now: int)
    | Restore(id: nat, now: int)
    | Purge(id: nat, action: string, now: int)
    | Recall(ids: seq<nat>)
    | DropOrphans

  function Step(s: Store, e: Event): Store {
    match e
    case Create(m, embedded) => AfterCreate(s, m, embedded)
    case Bump(id, source, mirror, link, now) => AfterBump(s, id, source, mirror, link, now)
    case Update(id, text, source, now) => AfterUpdate(s, id, text, source, now)
    case Rollback(id, v, now) => AfterRollback(s, id, v, now)
    case Pin(id, on, now) => AfterPin(s, id, on, now)
    case Deprecate(id, action, now) => AfterDeprecate(s, id, action, now)
    case Restore(id, now) => AfterRestore(s, id, now)
    case Purge(id, action, now) => AfterPurge(s, id, action, now)
    case Recall(ids) => s.(items := s.items + RecallItems(s, ids))
    case DropOrphans => s.(versions := KeepVersions(s.versions, s.memories))
  }

  /** A new row's trust comes from its source, and its public id is fresh: a new UUID, or
      an imported one that is neither live nor tombstoned. */
  ghost predicate Allowed(s: Store, e: Event) {
    e.Create? ==>
      && e.memory.trust == TrustOf(e.memory.source)
      && !Live(s.memories, e.memory.publicId) && !Tombstoned(s.tombstones, e.memory.publicId)
  }

  function Run(s: Store, events: seq<Event>): Store
    decreases |events|
  {
    if events == [] then s else Run(Step(s, events[0]), events[1..])
  }

  ghost predicate AllAllowed(s: Store, events: seq<Event>)
    decreases |events|
  {
    events == [] || (Allowed(s, events[0]) && AllAllowed(Step(s, events[0]), events[1..]))
  }

  // ---- the invariant -----------------------------------------------------------------------------

  ghost predicate VersionRefs(vs: seq<Version>, memories: map<nat, Memory>) {
    forall i :: 0 <= i < |vs| ==> vs[i].memory in memories
  }

  ghost predicate LinkRefs(links: seq<Link>, memories: map<nat, Memory>) {
    forall i :: 0 <= i < |links| ==> links[i].from in memories && links[i].to in memories
  }

  ghost predicate ItemRefs(items: seq<nat>, memories: map<nat, Memory>) {
    forall i :: 0 <= i < |items| ==> items[i] in memories
  }

  /** No table references a row that is not there. */
  ghost predicate Refs(s: Store) {
    && VersionRefs(s.versions, s.memories) && LinkRefs(s.links, s.memories) && ItemRefs(s.items, s.memories)
    && s.pins.Keys <= s.memories.Keys && s.vectors.Keys <= s.memories.Keys
  }

  /** Ids stay below the counter, public ids are distinct, none of them tombstoned. */
  ghost predicate Identities(memories: map<nat, Memory>, tombstones: seq<Tombstone>, nextId: nat) {
    && (forall id :: id in memories ==> id < nextId)
    && (forall a, b :: a in memories && b in memories && memories[a].publicId == memories[b].publicId ==> a == b)
    && (forall id :: id in memories ==> !Tombstoned(tombstones, memories[id].publicId))
  }

  /** The versions of a row are exactly 1..n, each superseding the one before, and its
      text is version n. */
  ghost predicate HasChain(vs: seq<Version>, id: nat, text: string) {
    var chain := VersionsOf(vs, id);
    ChainOk(chain) && chain != [] && chain[|chain| - 1].text == text
  }

  ghost predicate Chains(vs: seq<Version>, memories: map<nat, Memory>) {
    forall id :: id in memories ==> HasChain(vs, id, memories[id].text)
  }

  /** A row is untrusted exactly when the source it records is an untrusted kind. */
  ghost predicate Provenance(memories: map<nat, Memory>) {
    forall id :: id in memories ==> (memories[id].trust == Untrusted <==> TrustOf(memories[id].source) == Untrusted)
  }

  ghost predicate StoreOk(s: Store) {
    Refs(s) && Identities(s.memories, s.tombstones, s.nextId) && Chains(s.versions, s.memories)
        && Provenance(s.memories)
  }

  // ---- every step keeps it -----------------------------------------------------------------------

  lemma CreateKeeps(s: Store, m: Memory, embedded: bool)
    requires StoreOk(s) && Allowed(s, Create(m, embedded))
    ensures StoreOk(AfterCreate(s, m, embedded))
  {
    hide HasChain, Tombstoned, Live;
    CreateKeepsIdentities(s, m, embedded);
    CreateKeepsChains(s.versions, s.memories, s.nextId, m);
  }

  lemma CreateKeepsChains(vs: seq<Version>, memories: map<nat, Memory>, id: nat, m: Memory)
    requires Chains(vs, memories) && VersionRefs(vs, memories) && id !in memories
    ensures Chains(vs + [Version(id, 1, m.text, None)], memories[id := m])
  {
    hide VersionsOf;
    var v := Version(id, 1, m.text, None);
    NoVersions(vs, id);
    var ms := memories[id := m];
    forall x | x in ms
      ensures HasChain(vs + [v], x, ms[x].text)
    {
      VersionsSnoc(vs, v, x);
      assert x != id ==> HasChain(vs, x, memories[x].text);
    }
  }

  lemma CreateKeepsIdentities(s: Store, m: Memory, embedded: bool)
    requires Identities(s.memories, s.tombstones, s.nextId) && Allowed(s, Create(m, embedded))
    ensures Identities(s.memories[s.nextId := m], s.tombstones, s.nextId + 1)
  {
    var u := s.memories[s.nextId := m];
    forall a, b | a in u && b in u && u[a].publicId == u[b].publicId
      ensures a == b
    {
      assert Live(s.memories, m.publicId) || a == b;
    }
  }

  /** Steps that only touch columns of one row other than its identity and text. */
  lemma TouchKeeps(s: Store, u: Store, id: nat, m: Memory)
    requires StoreOk(s) && id in s.memories && m.publicId == s.memories[id].publicId && m.text == s.memories[id].text
    requires m.trust == Untrusted <==> TrustOf(m.source) == Untrusted
    requires u.memories == s.memories[id := m] && u.versions == s.versions && u.tombstones == s.tombstones
    requires u.nextId == s.nextId && u.items == s.items && u.pins.Keys <= u.memories.Keys
               && u.vectors.Keys <= u.memories.Keys
    requires u.links == s.links || u.links == s.links + [Link(id, id)]
    ensures StoreOk(u)
  {
    hide HasChain, Tombstoned;
  }

  lemma UpdateKeeps(s: Store, id: nat, text: string, source: Option<SourceKind>, now: int)
    requires StoreOk(s)
    ensures StoreOk(AfterUpdate(s, id, text, source, now))
  {
    hide HasChain, Tombstoned, MaxVersion;
    if id in s.memories {
      UpdateKeepsChains(s.versions, s.memories, id, AfterUpdate(s, id, text, source, now).memories[id]);
    }
  }

  lemma UpdateKeepsChains(vs: seq<Version>, memories: map<nat, Memory>, id: nat, m: Memory)
    requires Chains(vs, memories) && id in memories
    ensures Chains(vs + [NextVersion(vs, id, m.text)], memories[id := m])
  {
    hide HasChain, NextVersion;
    assert HasChain(vs, id, memories[id].text);
    forall x | x in memories
      ensures HasChain(vs + [NextVersion(vs, id, m.text)], x, memories[id := m][x].text)
    {
      assert HasChain(vs, x, memories[x].text);
      UpdatedChain(vs, id, memories[id].text, m.text, x, memories[x].text);
    }
  }

  /** The chain of row `x` after an update of row `id`. */
  lemma UpdatedChain(vs: seq<Version>, id: nat, before: string, text: string, x: nat, was: string)
    requires HasChain(vs, id, before) && HasChain(vs, x, was)
    ensures HasChain(vs + [NextVersion(vs, id, text)], x, if x == id then text else was)
  {
    hide VersionsOf, MaxVersion;
    ChainExtends(vs, id, text);
    VersionsSnoc(vs, NextVersion(vs, id, text), x);
  }

  /** An update appends the next version of that row and leaves older ones alone. */
  lemma UpdateExtendsChain(s: Store, id: nat, text: string, source: Option<SourceKind>, now: int)
    requires id in s.memories && HasChain(s.versions, id, s.memories[id].text)
    ensures var u := AfterUpdate(s, id, text, source, now);
            var chain := VersionsOf(s.versions, id);
            VersionsOf(u.versions, id) == chain + [Version(id, |chain| + 1, text, Some(|chain|))]
  {
    hide VersionsOf, MaxVersion;
    ChainExtends(s.versions, id, text);
  }

  lemma ChainExtends(vs: seq<Version>, id: nat, text: string)
    requires ChainOk(VersionsOf(vs, id)) && VersionsOf(vs, id) != []
    ensures var chain := VersionsOf(vs, id);
            var next := NextVersion(vs, id, text);
            && next == Version(id, |chain| + 1, text, Some(|chain|))
            && VersionsOf(vs + [next], id) == chain + [next]
            && ChainOk(chain + [next])
  {
    hide MaxVersion, VersionText, VersionsOf;
    ChainFacts(vs, id, 0);
    VersionsSnoc(vs, NextVersion(vs, id, text), id);
  }

  lemma {:induction false} LinksDropped(links: seq<Link>, id: nat, i: nat)
    requires i < |DropLinks(links, id)|
    ensures DropLinks(links, id)[i].from != id && DropLinks(links, id)[i].to != id
    ensures exists j :: 0 <= j < |links| && links[j] == DropLinks(links, id)[i]
  {
    var n := |links| - 1;
    if i < |DropLinks(links[..n], id)| {
      LinksDropped(links[..n], id, i);
      var j :| 0 <= j < n && links[..n][j] == DropLinks(links[..n], id)[i];
      assert links[j] == DropLinks(links, id)[i];
    } else {
      assert links[n] == DropLinks(links, id)[i];
    }
  }

  lemma {:induction false} ItemsDropped(items: seq<nat>, id: nat, i: nat)
    requires i < |DropItems(items, id)|
    ensures DropItems(items, id)[i] != id
    ensures exists j :: 0 <= j < |items| && items[j] == DropItems(items, id)[i]
  {
    var n := |items| - 1;
    if i < |DropItems(items[..n], id)| {
      ItemsDropped(items[..n], id, i);
      var j :| 0 <= j < n && items[..n][j] == DropItems(items[..n], id)[i];
      assert items[j] == DropItems(items, id)[i];
    } else {
      assert items[n] == DropItems(items, id)[i];
    }
  }

  /** After a purge no table references the id. */
  lemma PurgeLeavesNoReference(s: Store, id: nat, action: string, now: int)
    requires Refs(s) && id in s.memories
    ensures var u := AfterPurge(s, id, action, now);
            && Refs(u) && id !in u.memories && id !in u.pins && id !in u.vectors
            && VersionsOf(u.versions, id) == []
  {
    hide DropVersions, DropLinks, DropItems, VersionsOf, RowCount, VersionRefs, LinkRefs, ItemRefs;
    DropKeepsOthers(s.versions, id, id);
    VersionRefsDropped(s.versions, id, s.memories);
    LinkRefsDropped(s.links, id, s.memories);
    ItemRefsDropped(s.items, id, s.memories);
  }

  lemma VersionRefsDropped(vs: seq<Version>, id: nat, memories: map<nat, Memory>)
    requires VersionRefs(vs, memories)
    ensures VersionRefs(DropVersions(vs, id), memories - {id})
  {
    var r := DropVersions(vs, id);
    hide DropVersions;
    forall i | 0 <= i < |r|
      ensures r[i].memory in memories - {id}
    {
      DroppedAreGone(vs, id, i);
    }
  }

  lemma LinkRefsDropped(links: seq<Link>, id: nat, memories: map<nat, Memory>)
    requires LinkRefs(links, memories)
    ensures LinkRefs(DropLinks(links, id), memories - {id})
  {
    var r := DropLinks(links, id);
    hide DropLinks;
    forall i | 0 <= i < |r|
      ensures r[i].from in memories - {id} && r[i].to in memories - {id}
    {
      LinksDropped(links, id, i);
    }
  }

  lemma ItemRefsDropped(items: seq<nat>, id: nat, memories: map<nat, Memory>)
    requires ItemRefs(items, memories)
    ensures ItemRefs(DropItems(items, id), memories - {id})
  {
    var r := DropItems(items, id);
    hide DropItems;
    forall i | 0 <= i < |r|
      ensures r[i] in memories - {id}
    {
      ItemsDropped(items, id, i);
    }
  }

  function Size(s: Store): nat {
    |s.memories| + |s.versions| + |s.links| + |s.items| + |s.pins| + |s.vectors|
  }

  lemma MapLoses<T>(m: map<nat, T>, id: nat)
    ensures |m - {id}| == if id in m then |m| - 1 else |m|
  {
    assert (m - {id}).Keys == m.Keys - {id};
    assert |m - {id}| == |(m - {id}).Keys| && |m| == |m.Keys|;
  }

  /** The recorded row count is what the purge removed, and other rows are untouched. */
  lemma PurgeCountIsTrue(s: Store, id: nat, action: string, now: int)
    requires id in s.memories
    ensures var u := AfterPurge(s, id, action, now);
            && |u.tombstones| == |s.tombstones| + 1
            && var tomb := u.tombstones[|s.tombstones|];
            && tomb == Tombstone(s.memories[id].publicId, id, tomb.rows, now)
            && Size(s) == Size(u) + tomb.rows
            && (forall x :: x in s.memories && x != id ==>
                  x in u.memories && u.memories[x] == s.memories[x]
                      && VersionsOf(u.versions, x) == VersionsOf(s.versions, x))
  {
    hide DropVersions, DropLinks, DropItems, VersionsOf;
    MapLoses(s.memories, id);
    MapLoses(s.pins, id);
    MapLoses(s.vectors, id);
    forall x | x in s.memories && x != id
      ensures VersionsOf(DropVersions(s.versions, id), x) == VersionsOf(s.versions, x)
    {
      DropKeepsOthers(s.versions, id, x);
    }
  }

  lemma PurgeKeeps(s: Store, id: nat, action: string, now: int)
    requires StoreOk(s)
    ensures StoreOk(AfterPurge(s, id, action, now))
  {
    hide HasChain, Tombstoned, DropVersions, DropLinks, DropItems, VersionsOf, RowCount, VersionRefs, LinkRefs,
        ItemRefs;
    if id in s.memories {
      PurgeLeavesNoReference(s, id, action, now);
      PurgeKeepsIdentities(s.memories, s.tombstones, s.nextId, id,
          AfterPurge(s, id, action, now).tombstones[|s.tombstones|]);
      PurgeKeepsChains(s.versions, s.memories, id);
    }
  }

  lemma PurgeKeepsChains(vs: seq<Version>, memories: map<nat, Memory>, id: nat)
    requires Chains(vs, memories)
    ensures Chains(DropVersions(vs, id), memories - {id})
  {
    hide VersionsOf, DropVersions;
    forall x | x in memories - {id}
      ensures HasChain(DropVersions(vs, id), x, memories[x].text)
    {
      DropKeepsOthers(vs, id, x);
      assert HasChain(vs, x, memories[x].text);
    }
  }

  lemma PurgeKeepsIdentities(memories: map<nat, Memory>, tombstones: seq<Tombstone>, nextId: nat, id: nat,
                             tomb: Tombstone)
    requires Identities(memories, tombstones, nextId) && id in memories && tomb.publicId == memories[id].publicId
    ensures Identities(memories - {id}, tombstones + [tomb], nextId)
  {
    forall x | x in memories - {id}
      ensures !Tombstoned(tombstones + [tomb], memories[x].publicId)
    {
      assert !Tombstoned(tombstones, memories[x].publicId) && memories[x].publicId != tomb.publicId;
    }
  }

  lemma {:induction false} NothingOrphaned(vs: seq<Version>, memories: map<nat, Memory>)
    requires forall i :: 0 <= i < |vs| ==> vs[i].memory in memories
    ensures KeepVersions(vs, memories) == vs
  {
    if vs != [] {
      NothingOrphaned(vs[..|vs| - 1], memories);
    }
  }

  lemma BumpKeeps(s: Store, id: nat, source: SourceKind, mirror: bool, link: bool, now: int)
    requires StoreOk(s)
    ensures StoreOk(AfterBump(s, id, source, mirror, link, now))
  {
    if id in s.memories {
      var u := AfterBump(s, id, source, mirror, link, now);
      TouchKeeps(s, u, id, u.memories[id]);
    }
  }

  lemma RecallKeeps(s: Store, ids: seq<nat>)
    requires StoreOk(s)
    ensures StoreOk(Step(s, Recall(ids)))
  {
    hide HasChain, Tombstoned;
  }

  lemma FlagsKeep(s: Store, e: Event)
    requires StoreOk(s) && (e.Pin? || e.Deprecate? || e.Restore?)
    ensures StoreOk(Step(s, e))
  {
    if e.id in s.memories {
      var u := Step(s, e);
      TouchKeeps(s, u, e.id, u.memories[e.id]);
    }
  }

  lemma StepKeepsStore(s: Store, e: Event)
    requires StoreOk(s) && Allowed(s, e)
    ensures StoreOk(Step(s, e))
  {
    hide StoreOk, Allowed, AfterCreate, AfterBump, AfterUpdate, AfterPin, AfterDeprecate, AfterRestore, AfterPurge,
        VersionText;
    match e
    case Create(m, embedded) => CreateKeeps(s, m, embedded);
    case Bump(id, source, mirror, link, now) => BumpKeeps(s, id, source, mirror, link, now);
    case Update(id, text, source, now) => UpdateKeeps(s, id, text, source, now);
    case Rollback(id, v, now) =>
      var text := VersionText(s.versions, id, v);
      if text.Some? {
        UpdateKeeps(s, id, text.value, None, now);
      }
    case Pin(_, _, _) => FlagsKeep(s, e);
    case Deprecate(_, _, _) => FlagsKeep(s, e);
    case Restore(_, _) => FlagsKeep(s, e);
    case Purge(id, action, now) => PurgeKeeps(s, id, action, now);
    case Recall(ids) => RecallKeeps(s, ids);
    case DropOrphans => OrphansKeep(s);
  }

  /** Dropping orphaned versions finds none. */
  lemma OrphansKeep(s: Store)
    requires StoreOk(s)
    ensures Step(s, DropOrphans) == s
  {
    NothingOrphaned(s.versions, s.memories);
  }

  /** Every run from the empty store keeps all tables consistent. */
  lemma {:induction false} RunsKeepStore(s: Store, events: seq<Event>)
    requires StoreOk(s) && AllAllowed(s, events)
    ensures StoreOk(Run(s, events))
    decreases |events|
  {
    hide StoreOk, Allowed, Step;
    if events != [] {
      StepKeepsStore(s, events[0]);
      RunsKeepStore(Step(s, events[0]), events[1..]);
    }
  }

  lemma EmptyStoreOk()
    ensures StoreOk(EMPTY)
  {
  }
}
