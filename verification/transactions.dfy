/**
 * The transactions list: request window and where-object, the mapping of
 * execution results to a status, and the status cell's rendering decision.
 */
module Transactions {
  import opened Wrappers
  import opened Js
  import opened Records
  import opened FilterSchema
  import opened Utils
  import opened ListPage
  import opened Pagination
  import DataTable

  const Columns: Record<string> :=
    [Entry("hash", "Hash"), Entry("methodId", "Method ID"), Entry("sender", "Sender"), Entry("nonce", "Nonce"), Entry("status", "Status")]

  const QuerySchema: Schema := map["methodId" := StringKind, "sender" := StringKind, "hash" := StringKind]

  const NavigationPath: string := "/transactions/{hash}"

  const CopyKeys: seq<string> := ["hash", "sender", "methodId"]

  /** The page starts out loading, with no rows and a total of "0". */
  const InitialState: PageState<Row> := PageState(Some([]), "0", true)

  /** The request variables: `take` 10, the unclamped `skip`, and `buildWhere` of the filters unless empty. */
  function Request(page: int, filters: Record<Option<string>>): (v: Variables<Scalar>)
    ensures v.take == PerPage && v.skip == Skip(page)
    ensures v.where.None? <==> |WhereOf(filters, Some(QuerySchema))| == 0
    ensures v.where.Some? ==> v.where.value == WhereOf(filters, Some(QuerySchema))
  {
    RequestVariables(Skip(page), WhereOf(filters, Some(QuerySchema)))
  }

  /** `executionResult { status statusMessage }`. */
  datatype ExecutionResult = ExecutionResult(status: Option<bool>, statusMessage: Option<string>)

  /** A transaction as the indexer returns it. */
  datatype TxRecord = TxRecord(hash: string, sender: string, methodId: string, nonce: string, executionResult: Option<ExecutionResult>)

  /** The status column's value: `{ isSuccess, message? }`. */
  datatype Status = Status(isSuccess: bool, message: Option<string>)

  /** Success only for a status of exactly `true`; otherwise the status message, or "Pending" when it is null or undefined. */
  function StatusOf(r: Option<ExecutionResult>): (s: Status)
    ensures s.isSuccess <==> r.Some? && r.value.status == Some(true)
    ensures s.isSuccess ==> s.message.None?
    ensures !s.isSuccess && r.Some? && r.value.statusMessage.Some? ==> s.message == r.value.statusMessage
    ensures !s.isSuccess && (r.None? || r.value.statusMessage.None?) ==> s.message == Some("Pending")
  {
    if r.Some? && r.value.status == Some(true) then Status(true, None)
    else Status(false, Some(if r.Some? && r.value.statusMessage.Some? then r.value.statusMessage.value else "Pending"))
  }

  datatype Row = Row(hash: string, methodId: string, sender: string, nonce: string, status: Status)

  /** One row: hash, method id, sender and nonce copied, the status mapped. */
  function RowOf(t: TxRecord): (r: Row)
    ensures r.hash == t.hash && r.methodId == t.methodId && r.sender == t.sender && r.nonce == t.nonce
    ensures r.status == StatusOf(t.executionResult)
  {
    Row(t.hash, t.methodId, t.sender, t.nonce, StatusOf(t.executionResult))
  }

  /** `transactions.map(…)`: one row per transaction, in response order. */
  function Rows(ts: seq<TxRecord>): (rs: seq<Row>)
    ensures |rs| == |ts| && forall i :: 0 <= i < |ts| ==> rs[i] == RowOf(ts[i])
  {
    if ts == [] then [] else [RowOf(ts[0])] + Rows(ts[1..])
  }

  /** `result.data?.transactions` and `result.data?.aggregateTransaction?._count?._all`. */
  datatype Response = Response(transactions: Option<seq<TxRecord>>, total: Option<int>)

  /** The state a fetch leaves: rows and total on success; no rows and the old total on failure. */
  function AfterFetch(s: PageState<Row>, outcome: Outcome<Response>): (t: PageState<Row>)
    ensures !t.loading
    ensures outcome.Received? ==>
              (t.items.Some? <==> outcome.response.transactions.Some?) &&
              (t.items.Some? ==> t.items.value == Rows(outcome.response.transactions.value)) &&
              t.totalCount == CountText(outcome.response.total) &&
              ToNumber(t.totalCount) == Finite(outcome.response.total.GetOr(0))
    ensures outcome.Failed? ==> t.items == Some([]) && t.totalCount == s.totalCount
  {
    match outcome
    case Failed => FailedKeepingTotal(s)
    case Received(r) =>
      Loaded(if r.transactions.Some? then Some(Rows(r.transactions.value)) else None, r.total)
  }

  /** What the status cell shows: a success icon, or a failure icon with the message when it is defined. */
  datatype StatusView = SuccessIcon | FailureIcon(shownMessage: Option<string>)

  function RenderStatus(row: Row): (v: StatusView)
    ensures v.SuccessIcon? <==> row.status.isSuccess
    ensures v.FailureIcon? ==> v.shownMessage == row.status.message
  {
    if row.status.isSuccess then SuccessIcon else FailureIcon(row.status.message)
  }

  /**
   * For a row built from the indexer, the cell shows success exactly when the
   * execution status was `true`, and a failure always comes with a message.
   */
  lemma RenderedStatus(t: TxRecord)
    ensures RenderStatus(RowOf(t)).SuccessIcon? <==> t.executionResult.Some? && t.executionResult.value.status == Some(true)
    ensures RenderStatus(RowOf(t)).FailureIcon? ==> RenderStatus(RowOf(t)).shownMessage.Some?
  {
  }

  /** The fields the table reads from a row (the status object prints as `[object Object]`). */
  function Fields(row: Row): DataTable.Item {
    map["methodId" := row.methodId, "sender" := row.sender, "nonce" := row.nonce,
        "status" := "[object Object]"]["hash" := row.hash]
  }

  /** Clicking a row opens that transaction's page. */
  lemma RowLink(row: Row)
    ensures DataTable.RowClick(Some(NavigationPath), Fields(row)) == Some("/transactions/" + row.hash)
  {
    var key := "hash";
    assert NavigationPath == "/transactions/" + "{" + key + "}";
    assert forall i :: 0 <= i < |key| ==> DataTable.IsWordChar(key[i]);
    DataTable.RowClickPlaceholder("/transactions/", key, Fields(row));
    assert DataTable.FieldText(Fields(row), key) == row.hash;
  }
}
