/**
 * The settlements list: the clamped request window, the settlement rows
 * with their batch counts, and the reset of the total on failure.
 */
module Settlements {
  import opened Wrappers
  import opened Js
  import opened Records
  import opened FilterSchema
  import opened Utils
  import opened ListPage
  import opened Pagination
  import DataTable

  const Columns: Record<string> :=
    [Entry("transactionHash", "Transaction Hash"), Entry("promisedMessagesHash", "Promised Messages Hash"), Entry("batches", "Batches")]

  const QuerySchema: Schema := map["transactionHash" := StringKind, "promisedMessagesHash" := StringKind]

  const NavigationPath: string := "/settlements/{transactionHash}"

  const CopyKeys: seq<string> := ["transactionHash", "promisedMessagesHash"]

  /** The page starts out idle, with no rows and a total of "0". */
  const InitialState: PageState<Row> := PageState(Some([]), "0", false)

  /** The request variables: `take` 10, the clamped `skip`, and `buildWhere` of the filters unless empty. */
  function Request(page: int, filters: Record<Option<string>>): (v: Variables<Scalar>)
    ensures v.take == PerPage && v.skip == ClampedSkip(page) && v.skip >= 0
    ensures v.where.None? <==> |WhereOf(filters, Some(QuerySchema))| == 0
    ensures v.where.Some? ==> v.where.value == WhereOf(filters, Some(QuerySchema))
  {
    RequestVariables(ClampedSkip(page), WhereOf(filters, Some(QuerySchema)))
  }

  /** A settlement as the indexer returns it; `batchCount` is `_count?.batches`. */
  datatype SettlementRecord = SettlementRecord(transactionHash: string, promisedMessagesHash: string, batchCount: Option<int>)

  datatype Row = Row(transactionHash: string, promisedMessagesHash: string, batches: string)

  /** One row: both hashes copied, the batch count as text ("0" when missing). */
  function RowOf(s: SettlementRecord): (r: Row)
    ensures r.transactionHash == s.transactionHash && r.promisedMessagesHash == s.promisedMessagesHash
    ensures s.batchCount.None? ==> r.batches == "0"
    ensures s.batchCount.Some? ==> r.batches == IntToString(s.batchCount.value)
    ensures ToNumber(r.batches) == Finite(s.batchCount.GetOr(0))
  {
    CountTextNumber(s.batchCount);
    Row(s.transactionHash, s.promisedMessagesHash, CountText(s.batchCount))
  }

  /** `settlements.map(…)`: one row per settlement, in response order. */
  function Rows(ss: seq<SettlementRecord>): (rs: seq<Row>)
    ensures |rs| == |ss| && forall i :: 0 <= i < |ss| ==> rs[i] == RowOf(ss[i])
  {
    if ss == [] then [] else [RowOf(ss[0])] + Rows(ss[1..])
  }

  /** `result.data?.settlements` and `result.data?.aggregateSettlement?._count?._all`. */
  datatype Response = Response(settlements: Option<seq<SettlementRecord>>, total: Option<int>)

  /** The state a fetch leaves: rows and total on success; no rows and a total of "0" on failure. */
  function AfterFetch(s: PageState<Row>, outcome: Outcome<Response>): (t: PageState<Row>)
    ensures !t.loading
    ensures outcome.Received? ==>
              (t.items.Some? <==> outcome.response.settlements.Some?) &&
              (t.items.Some? ==> t.items.value == Rows(outcome.response.settlements.value)) &&
              t.totalCount == CountText(outcome.response.total) &&
              ToNumber(t.totalCount) == Finite(outcome.response.total.GetOr(0))
    ensures outcome.Failed? ==> t.items == Some([]) && t.totalCount == "0" && ToNumber(t.totalCount) == Finite(0)
  {
    match outcome
    case Failed => FailedResettingTotal(s)
    case Received(r) =>
      Loaded(if r.settlements.Some? then Some(Rows(r.settlements.value)) else None, r.total)
  }

  function Fields(row: Row): DataTable.Item {
    map["promisedMessagesHash" := row.promisedMessagesHash, "batches" := row.batches]["transactionHash" := row.transactionHash]
  }

  /** Clicking a row opens that settlement's page. */
  lemma RowLink(row: Row)
    ensures DataTable.RowClick(Some(NavigationPath), Fields(row)) == Some("/settlements/" + row.transactionHash)
  {
    var key := "transactionHash";
    assert NavigationPath == "/settlements/" + "{" + key + "}";
    assert forall i :: 0 <= i < |key| ==> DataTable.IsWordChar(key[i]);
    DataTable.RowClickPlaceholder("/settlements/", key, Fields(row));
    assert DataTable.FieldText(Fields(row), key) == row.transactionHash;
  }
}
