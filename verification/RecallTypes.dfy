/** Rows and hits shared by the recall stages. */
module RecallTypes {
  import opened Wrappers

  datatype Tier = Working | Episodic | Semantic | Procedural

  datatype Status = Active | Pending | Deprecated | Deleted

  datatype Trust = Trusted | Untrusted | System

  /** A `memories` row as the filter resolves it; `successor` is some row that
      supersedes this one. */
  datatype CanonicalRow = CanonicalRow(
    rowid: int, publicId: string, agent: string, tier: Tier, status: Status, trust: Trust,
    expiresAt: Option<int>, supersededBy: Option<int>, successor: Option<int>,
    createdAt: int, lastReferencedAt: Option<int>, importance: real, confidence: real,
    pinned: bool, text: string, summaryText: Option<string>, summaryTokens: Option<int>)

  datatype DropReason = TierBudget | TotalBudget | Unresolved

  datatype Placement = Unpacked | Full | Summary | Dropped(reason: DropReason)

  datatype Hit = Hit(
    rowid: int, publicId: string, tier: Tier, trust: Trust, score: real,
    placement: Placement, tokens: nat, rrf: real, sim: Option<real>, bm25Rank: Option<nat>)

  type Rows = map<int, CanonicalRow>

  /** No row twice. */
  ghost predicate OncePerRow(hits: seq<Hit>) {
    forall i, j :: 0 <= i < j < |hits| ==> hits[i].rowid != hits[j].rowid
  }

  /** Public ids tell hits apart. */
  ghost predicate DistinctHits(hits: seq<Hit>) {
    forall x, y :: x in multiset(hits) && y in multiset(hits) && x.publicId == y.publicId ==> x == y
  }
}
