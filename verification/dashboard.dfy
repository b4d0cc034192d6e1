/**
 * The home-page dashboard: the statistics derived from one indexer
 * response, with their defaults and the state-root fallback chain, and the
 * loading lifecycle of the "Latest Blocks" table.
 */
module Dashboard {
  import opened Wrappers
  import opened Js
  import opened ListPage

  /** The newest block: `height`, `hash`, `fromStateRoot` and `result?.stateRoot`. */
  datatype BlockSummary = BlockSummary(height: int, hash: string, fromStateRoot: Option<string>, stateRoot: Option<string>)

  datatype RecentBlock = RecentBlock(height: int, hash: string)

  datatype SettlementSummary = SettlementSummary(transactionHash: string, promisedMessagesHash: string)

  /** `result.data`, each part possibly missing. */
  datatype DashboardData = DashboardData(
    blockCount: Option<int>,          // aggregateBlock?._count?._all
    transactionCount: Option<int>,    // aggregateTransaction?._count?._all
    blocks: Option<seq<BlockSummary>>,
    recentBlocks: Option<seq<RecentBlock>>,
    settlements: Option<seq<SettlementSummary>>)

  datatype LatestBlock = LatestBlock(height: int, hash: string)
  datatype LatestSettlement = LatestSettlement(hash: string, promisedMessagesHash: string)

  /** `DashboardStatsData`. */
  datatype Stats = Stats(blocksCount: int, transactionsCount: int, latestBlock: Option<LatestBlock>,
                         latestSettlement: Option<LatestSettlement>, currentStateRoot: string,
                         recentBlocks: Option<seq<RecentBlock>>)

  /** The placeholder shown when no state root is known. */
  const NoStateRoot: string := "—"

  /** A string is truthy when it is present and not empty. */
  predicate Truthy(s: Option<string>) {
    s.Some? && s.value != ""
  }

  /** `stateRoot || fromStateRoot || "—"` of the newest block. */
  function CurrentStateRoot(blocks: Option<seq<BlockSummary>>): (root: string)
    ensures root != ""
    ensures blocks.Some? && |blocks.value| > 0 && Truthy(blocks.value[0].stateRoot) ==> root == blocks.value[0].stateRoot.value
    ensures blocks.Some? && |blocks.value| > 0 && !Truthy(blocks.value[0].stateRoot) && Truthy(blocks.value[0].fromStateRoot) ==>
              root == blocks.value[0].fromStateRoot.value
    ensures (blocks.None? || |blocks.value| == 0 || (!Truthy(blocks.value[0].stateRoot) && !Truthy(blocks.value[0].fromStateRoot))) ==>
              root == NoStateRoot
  {
    if blocks.Some? && |blocks.value| > 0 && Truthy(blocks.value[0].stateRoot) then blocks.value[0].stateRoot.value
    else if blocks.Some? && |blocks.value| > 0 && Truthy(blocks.value[0].fromStateRoot) then blocks.value[0].fromStateRoot.value
    else NoStateRoot
  }

  /**
   * The `setStats` argument; `None` when there is no `data` at all, where
   * reading `data.recentBlocks` throws and the statistics are not updated.
   */
  function ToStats(data: Option<DashboardData>): (s: Option<Stats>)
    ensures s.None? <==> data.None?
    ensures s.Some? ==> s.value.blocksCount == data.value.blockCount.GetOr(0)
    ensures s.Some? ==> s.value.transactionsCount == data.value.transactionCount.GetOr(0)
    ensures s.Some? ==> (s.value.latestBlock.None? <==> data.value.blocks.None? || |data.value.blocks.value| == 0)
    ensures s.Some? && s.value.latestBlock.Some? ==>
              s.value.latestBlock.value == LatestBlock(data.value.blocks.value[0].height, data.value.blocks.value[0].hash)
    ensures s.Some? ==> (s.value.latestSettlement.None? <==> data.value.settlements.None? || |data.value.settlements.value| == 0)
    ensures s.Some? && s.value.latestSettlement.Some? ==>
              s.value.latestSettlement.value.hash == data.value.settlements.value[0].transactionHash &&
              s.value.latestSettlement.value.promisedMessagesHash == data.value.settlements.value[0].promisedMessagesHash
    ensures s.Some? ==> s.value.currentStateRoot == CurrentStateRoot(data.value.blocks)
    ensures s.Some? ==> s.value.recentBlocks == data.value.recentBlocks
  {
    if data.None? then None
    else
      var d := data.value;
      var latestBlock :=
        if d.blocks.Some? && |d.blocks.value| > 0 then Some(LatestBlock(d.blocks.value[0].height, d.blocks.value[0].hash)) else None;
      var latestSettlement :=
        if d.settlements.Some? && |d.settlements.value| > 0
        then Some(LatestSettlement(d.settlements.value[0].transactionHash, d.settlements.value[0].promisedMessagesHash))
        else None;
      Some(Stats(d.blockCount.GetOr(0), d.transactionCount.GetOr(0), latestBlock, latestSettlement,
                 CurrentStateRoot(d.blocks), d.recentBlocks))
  }

  /** The dashboard's state: the statistics (null until the first success) and the loading flag. */
  datatype DashboardState = DashboardState(stats: Option<Stats>, loading: bool)

  const InitialState: DashboardState := DashboardState(None, true)

  /** `setLoading(true)` before the request. */
  function Started(s: DashboardState): (t: DashboardState)
    ensures t.loading && t.stats == s.stats
  {
    s.(loading := true)
  }

  /** After the request, whatever happened: new statistics on success, the old ones otherwise; never loading. */
  function Finished(s: DashboardState, outcome: Outcome<Option<DashboardData>>): (t: DashboardState)
    ensures !t.loading
    ensures outcome.Failed? ==> t.stats == s.stats
    ensures outcome.Received? && outcome.response.None? ==> t.stats == s.stats
    ensures outcome.Received? && outcome.response.Some? ==> t.stats == ToStats(outcome.response)
  {
    match outcome
    case Failed => DashboardState(s.stats, false)
    case Received(data) => DashboardState(if data.None? then s.stats else ToStats(data), false)
  }

  /** The body of the "Latest Blocks" table. */
  datatype RecentTable = SkeletonRows(count: nat) | BlockRows(blocks: seq<RecentBlock>) | NoBlocksRow

  function RecentBlocksTable(s: DashboardState): (t: RecentTable)
    ensures s.loading <==> t == SkeletonRows(5)
    ensures t.BlockRows? ==> |t.blocks| > 0
    ensures !s.loading && s.stats.Some? && s.stats.value.recentBlocks.Some? && |s.stats.value.recentBlocks.value| > 0 ==>
              t == BlockRows(s.stats.value.recentBlocks.value)
    ensures !s.loading && (s.stats.None? || s.stats.value.recentBlocks.None? || |s.stats.value.recentBlocks.value| == 0) ==>
              t == NoBlocksRow
  {
    if s.loading then SkeletonRows(5)
    else if s.stats.Some? && s.stats.value.recentBlocks.Some? && |s.stats.value.recentBlocks.value| > 0
    then BlockRows(s.stats.value.recentBlocks.value)
    else NoBlocksRow
  }

  /** Once a fetch has finished, the table never shows skeletons, whatever the outcome. */
  lemma NoSkeletonsAfterFetch(s: DashboardState, outcome: Outcome<Option<DashboardData>>)
    ensures !RecentBlocksTable(Finished(Started(s), outcome)).SkeletonRows?
    ensures RecentBlocksTable(Started(s)) == SkeletonRows(5)
  {
  }

  /** The "Total Blocks" card: `stats?.blocksCount ?? 0`. */
  function TotalBlocksShown(s: DashboardState): (n: int)
    ensures s.stats.None? ==> n == 0
    ensures s.stats.Some? ==> n == s.stats.value.blocksCount
  {
    if s.stats.Some? then s.stats.value.blocksCount else 0
  }

  /**
   * After a fetch the "Total Blocks" card shows the response's block count
   * (0 when it is missing), or what it showed before when nothing was stored.
   */
  lemma TotalBlocksAfterFetch(s: DashboardState, outcome: Outcome<Option<DashboardData>>)
    ensures outcome.Received? && outcome.response.Some? ==>
              TotalBlocksShown(Finished(Started(s), outcome)) == outcome.response.value.blockCount.GetOr(0)
    ensures (outcome.Failed? || outcome.response.None?) ==>
              TotalBlocksShown(Finished(Started(s), outcome)) == TotalBlocksShown(s)
  {
  }
}
