/**
 * The batches list: the clamped request window with a numeric height
 * filter, the batch rows with their block counts, and the reset of the
 * total on failure.
 */
module Batches {
  import opened Wrappers
  import opened Js
  import opened Records
  import opened FilterSchema
  import opened Utils
  import opened ListPage
  import opened Pagination
  import DataTable

  const Columns: Record<string> :=
    [Entry("height", "Height"), Entry("blocks", "Blocks"), Entry("settlementTransactionHash", "Settlement Transaction Hash")]

  const QuerySchema: Schema := map["height" := NumberKind, "settlementTransactionHash" := StringKind]

  const NavigationPath: string := "/batches/{height}"

  const CopyKeys: seq<string> := ["settlementTransactionHash"]

  /** The page starts out idle, with no rows and a total of "0". */
  const InitialState: PageState<Row> := PageState(Some([]), "0", false)

  /** The request variables: `take` 10, the clamped `skip`, and `buildWhere` of the filters unless empty. */
  function Request(page: int, filters: Record<Option<string>>): (v: Variables<Scalar>)
    ensures v.take == PerPage && v.skip == ClampedSkip(page) && v.skip >= 0
    ensures v.where.None? <==> |WhereOf(filters, Some(QuerySchema))| == 0
    ensures v.where.Some? ==> v.where.value == WhereOf(filters, Some(QuerySchema))
  {
    RequestVariables(ClampedSkip(page), WhereOf(filters, Some(QuerySchema)))
  }

  /** A non-empty height filter is sent as `{ equals: Number(height) }`. */
  lemma HeightSentAsNumber(filters: Record<Option<string>>, height: string)
    requires DistinctKeys(filters) && Find(filters, "height") == Some(Some(height)) && height != ""
    ensures Find(WhereOf(filters, Some(QuerySchema)), "height") == Some(Numeric(ToNumber(height)))
  {
    WhereOfFind(filters, Some(QuerySchema), "height");
  }

  /** A batch as the indexer returns it; `blockCount` is `_count?.blocks`. */
  datatype BatchRecord = BatchRecord(height: string, settlementTransactionHash: string, blockCount: Option<int>)

  datatype Row = Row(height: string, blocks: string, settlementTransactionHash: string)

  /** One row: height and settlement hash copied, the block count as text ("0" when missing). */
  function RowOf(b: BatchRecord): (r: Row)
    ensures r.height == b.height && r.settlementTransactionHash == b.settlementTransactionHash
    ensures b.blockCount.None? ==> r.blocks == "0"
    ensures b.blockCount.Some? ==> r.blocks == IntToString(b.blockCount.value)
    ensures ToNumber(r.blocks) == Finite(b.blockCount.GetOr(0))
  {
    CountTextNumber(b.blockCount);
    Row(b.height, CountText(b.blockCount), b.settlementTransactionHash)
  }

  /** `batches.map(…)`: one row per batch, in response order. */
  function Rows(bs: seq<BatchRecord>): (rs: seq<Row>)
    ensures |rs| == |bs| && forall i :: 0 <= i < |bs| ==> rs[i] == RowOf(bs[i])
  {
    if bs == [] then [] else [RowOf(bs[0])] + Rows(bs[1..])
  }

  /** `result.data?.batches` and `result.data?.aggregateBatch?._count?._all`. */
  datatype Response = Response(batches: Option<seq<BatchRecord>>, total: Option<int>)

  /** The state a fetch leaves: rows and total on success; no rows and a total of "0" on failure. */
  function AfterFetch(s: PageState<Row>, outcome: Outcome<Response>): (t: PageState<Row>)
    ensures !t.loading
    ensures outcome.Received? ==>
              (t.items.Some? <==> outcome.response.batches.Some?) &&
              (t.items.Some? ==> t.items.value == Rows(outcome.response.batches.value)) &&
              t.totalCount == CountText(outcome.response.total) &&
              ToNumber(t.totalCount) == Finite(outcome.response.total.GetOr(0))
    ensures outcome.Failed? ==> t.items == Some([]) && t.totalCount == "0" && ToNumber(t.totalCount) == Finite(0)
  {
    match outcome
    case Failed => FailedResettingTotal(s)
    case Received(r) =>
      Loaded(if r.batches.Some? then Some(Rows(r.batches.value)) else None, r.total)
  }

  function Fields(row: Row): DataTable.Item {
    map["blocks" := row.blocks, "settlementTransactionHash" := row.settlementTransactionHash]["height" := row.height]
  }

  /** Clicking a row opens that batch's page. */
  lemma RowLink(row: Row)
    ensures DataTable.RowClick(Some(NavigationPath), Fields(row)) == Some("/batches/" + row.height)
  {
    var key := "height";
    assert NavigationPath == "/batches/" + "{" + key + "}";
    assert forall i :: 0 <= i < |key| ==> DataTable.IsWordChar(key[i]);
    DataTable.RowClickPlaceholder("/batches/", key, Fields(row));
    assert DataTable.FieldText(Fields(row), key) == row.height;
  }
}
