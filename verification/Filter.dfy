/** The hard filter of recall: the SQL predicate over the memories table, its mirror on
    resolved rows, and the gates that load rows through both. */
module Filter {
  import opened Wrappers
  import opened RecallTypes

  datatype TrustPolicy = Strict | Fenced

  function EligibleTiers(includeEpisodic: bool): set<Tier> {
    if includeEpisodic then {Working, Episodic, Semantic, Procedural} else {Working, Semantic, Procedural}
  }

  function EligibleStatuses(includePending: bool): set<Status> {
    if includePending then {Active, Pending} else {Active}
  }

  function EligibleTrusts(policy: TrustPolicy): set<Trust> {
    if policy == Strict then {Trusted, System} else {Trusted, System, Untrusted}
  }

  datatype HardFilter = HardFilter(agent: string, tiers: set<Tier>, statuses: set<Status>, trusts: set<Trust>, now: int)

  function FromQuery(agent: string, includeEpisodic: bool, includePending: bool, policy: TrustPolicy,
                     now: int): HardFilter {
    HardFilter(agent, EligibleTiers(includeEpisodic), EligibleStatuses(includePending), EligibleTrusts(policy), now)
  }

  /** A row of the table; `supersedes` and `supersededBy` are the two supersede columns. */
  datatype MemoryRow = MemoryRow(
    publicId: string, agent: string, tier: Tier, status: Status, trust: Trust, expiresAt: Option<int>,
    supersedes: Option<int>, supersededBy: Option<int>, createdAt: int, lastReferencedAt: Option<int>,
    importance: real, confidence: real, pinned: bool, text: string, summaryText: Option<string>,
    summaryTokens: Option<int>)

  type Table = map<int, MemoryRow>

  ghost predicate UniquePublicIds(t: Table) {
    forall a, b :: a in t && b in t && t[a].publicId == t[b].publicId ==> a == b
  }

  predicate Supersedes(t: Table, s: int, id: int) {
    s in t && t[s].supersedes == Some(id)
  }

  /** Some row names `id` as the row it supersedes. */
  predicate HasSuccessor(t: Table, id: int) {
    exists s :: s in t && Supersedes(t, s, id)
  }

  /** The predicate as SQL evaluates it, NULL columns included. */
  predicate Predicate(f: HardFilter, t: Table, id: int)
    requires id in t
  {
    var m := t[id];
    && m.agent == f.agent && m.tier in f.tiers && m.status in f.statuses && m.trust in f.trusts
    && (m.expiresAt.None? || m.expiresAt.value > f.now)
    && m.supersededBy.None?
    && !HasSuccessor(t, id)
    && (m.lastReferencedAt.None? || m.lastReferencedAt.value >= m.createdAt)
  }

  function Row(id: int, m: MemoryRow, successor: Option<int>): CanonicalRow {
    CanonicalRow(id, m.publicId, m.agent, m.tier, m.status, m.trust, m.expiresAt, m.supersededBy, successor,
                 m.createdAt, m.lastReferencedAt, m.importance, m.confidence, m.pinned, m.text, m.summaryText,
                 m.summaryTokens)
  }

  /** The resolved row carries every column of the table's row under its own name. */
  lemma RowIsFaithful(id: int, m: MemoryRow, successor: Option<int>)
    ensures var c := Row(id, m, successor);
            && c.rowid == id && c.publicId == m.publicId && c.agent == m.agent && c.tier == m.tier
            && c.status == m.status && c.trust == m.trust && c.expiresAt == m.expiresAt
            && c.supersededBy == m.supersededBy && c.successor == successor && c.createdAt == m.createdAt
            && c.lastReferencedAt == m.lastReferencedAt && c.importance == m.importance
            && c.confidence == m.confidence && c.pinned == m.pinned && c.text == m.text
            && c.summaryText == m.summaryText && c.summaryTokens == m.summaryTokens
  {
  }

  /** `c` is row `id` as the column list resolves it: the successor is any one row the
      subquery may pick. */
  ghost predicate Resolves(t: Table, id: int, c: CanonicalRow)
    requires id in t
  {
    && c == Row(id, t[id], c.successor)
    && (if c.successor.Some? then Supersedes(t, c.successor.value, id) else !HasSuccessor(t, id))
  }

  /** The mirror of the predicate on a resolved row. */
  predicate Admits(f: HardFilter, c: CanonicalRow) {
    && c.agent == f.agent && c.tier in f.tiers && c.status in f.statuses && c.trust in f.trusts
    && (c.expiresAt.Some? ==> c.expiresAt.value > f.now)
    && c.supersededBy.None? && c.successor.None?
    && (c.lastReferencedAt.Some? ==> c.lastReferencedAt.value >= c.createdAt)
  }

  /** Predicate and mirror agree on every row of every table, however it is resolved. */
  lemma MirrorAgrees(f: HardFilter, t: Table, id: int, c: CanonicalRow)
    requires id in t && Resolves(t, id, c)
    ensures Predicate(f, t, id) <==> Admits(f, c)
  {
    if c.successor.Some? {
      assert c.successor.value in t && Supersedes(t, c.successor.value, id);
    }
  }

  method Resolve(t: Table, id: int) returns (c: CanonicalRow)
    requires id in t
    ensures Resolves(t, id, c)
  {
    if s :| s in t && Supersedes(t, s, id) {
      return Row(id, t[id], Some(s));
    }
    return Row(id, t[id], None);
  }

  /** The rows a lookup of `ids` yields. */
  function AdmittedRows(f: HardFilter, t: Table, ids: set<int>): (rows: Rows)
    ensures forall id :: id in rows <==> id in ids && id in t && Predicate(f, t, id)
    ensures forall id :: id in rows ==> rows[id] == Row(id, t[id], None)
  {
    map id | id in ids && id in t && Predicate(f, t, id) :: Row(id, t[id], None)
  }

  /** Which rows a query may see, in its own terms. */
  lemma EligibleExactly(agent: string, includeEpisodic: bool, includePending: bool, policy: TrustPolicy, now: int,
                        t: Table, id: int)
    requires id in t
    ensures Predicate(FromQuery(agent, includeEpisodic, includePending, policy, now), t, id) <==>
              && t[id].agent == agent
              && (t[id].tier == Episodic ==> includeEpisodic)
              && (t[id].status == Active || (includePending && t[id].status == Pending))
              && (t[id].trust == Untrusted ==> policy == Fenced)
              && (t[id].expiresAt.Some? ==> t[id].expiresAt.value > now)
              && t[id].supersededBy.None? && (forall s :: s in t ==> t[s].supersedes != Some(id))
              && (t[id].lastReferencedAt.Some? ==> t[id].lastReferencedAt.value >= t[id].createdAt)
  {
    assert (forall s :: s in t ==> t[s].supersedes != Some(id)) <==> !HasSuccessor(t, id) by {
      assert forall s :: Supersedes(t, s, id) <==> s in t && t[s].supersedes == Some(id);
    }
  }

  /** Every loaded row passes both gates. */
  lemma LoadedRowsAreAdmitted(f: HardFilter, t: Table, ids: set<int>, id: int)
    requires id in AdmittedRows(f, t, ids)
    ensures Resolves(t, id, AdmittedRows(f, t, ids)[id]) && Admits(f, AdmittedRows(f, t, ids)[id])
  {
    MirrorAgrees(f, t, id, AdmittedRows(f, t, ids)[id]);
  }

  /** Rows matching the predicate, resolved, then kept only if the mirror admits them. */
  method LoadByRowids(f: HardFilter, t: Table, ids: set<int>) returns (rows: Rows)
    ensures rows == AdmittedRows(f, t, ids)
  {
    rows := map[];
    var todo := ids;
    while todo != {}
      invariant todo <= ids
      invariant rows == AdmittedRows(f, t, ids - todo)
      decreases |todo|
    {
      var pick := AnyOf(todo);
      var id := pick.value;
      ghost var was := rows;
      if id in t && Predicate(f, t, id) {
        var c := Resolve(t, id);
        MirrorAgrees(f, t, id, c);
        if Admits(f, c) {
          rows := rows[id := c];
        }
      }
      assert ids - (todo - {id}) == (ids - todo) + {id};
      todo := todo - {id};
    }
    assert ids - {} == ids;
  }

  function Surviving(f: HardFilter, t: Table, publicIds: set<string>): (s: set<string>) {
    set id | id in t && t[id].publicId in publicIds && Predicate(f, t, id) :: t[id].publicId
  }
}
