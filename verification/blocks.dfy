/**
 * The blocks list: its own where-builder (`queryTransformer`, with the
 * `hideEmpty` special case), the unclamped request window and the mapping
 * from indexer blocks to table rows.
 */
module Blocks {
  import opened Wrappers
  import opened Js
  import opened Records
  import opened FilterSchema
  import opened SearchParams
  import opened Utils
  import opened ListPage
  import opened Pagination
  import DataTable
  import QueryParams

  const Columns: Record<string> :=
    [Entry("height", "Height"), Entry("hash", "Hash"), Entry("transactions", "Transactions"), Entry("stateRoot", "State Root")]

  const QuerySchema: Schema := map["height" := NumberKind, "hash" := StringKind, "hideEmpty" := BooleanKind]

  const NavigationPath: string := "/blocks/{hash}"

  const CopyKeys: seq<string> := ["hash", "stateRoot"]

  /** The two alternatives of the "hide empty blocks" condition. */
  datatype Condition =
    | TransactionsHashNotZero    // `{ transactionsHash: { not: { equals: "0" } } }`
    | SomeMessageTransaction     // `{ transactions: { some: { tx: { is: { isMessage: { equals: true } } } } } }`

  /** A where-entry: `{ equals: v }`, or the `OR` list (undefined unless hiding empty blocks). */
  datatype Clause = Equals(operand: Scalar) | AnyOf(conditions: Option<seq<Condition>>)

  /** The `OR` entry written for a non-empty `hideEmpty` value. */
  function HideEmptyClause(value: string): (c: Clause)
    ensures c.AnyOf?
    ensures c.conditions.Some? <==> value == "true"
    ensures c.conditions.Some? ==> c.conditions.value == [TransactionsHashNotZero, SomeMessageTransaction]
  {
    AnyOf(if value == "true" then Some([TransactionsHashNotZero, SomeMessageTransaction]) else None)
  }

  /** The effect of one `forEach` turn of `queryTransformer`. */
  function TransformStep(where: Record<Clause>, e: Entry<Option<string>>, schema: Schema): Record<Clause> {
    if Skipped(e.value) then where
    else if e.key == "hideEmpty" then Assign(where, "OR", HideEmptyClause(e.value.value))
    else Assign(where, e.key, Equals(Coerce(e.key, e.value.value, Some(schema))))
  }

  /** The where-object after `queryTransformer` has visited every entry, in order. */
  function Transformed(filters: Record<Option<string>>, schema: Schema): Record<Clause> {
    if filters == [] then []
    else TransformStep(Transformed(filters[..|filters| - 1], schema), filters[|filters| - 1], schema)
  }

  /** `queryTransformer(filters, schema)`. */
  method QueryTransformer(filters: Record<Option<string>>, schema: Schema) returns (where: Record<Clause>)
    ensures where == Transformed(filters, schema)
  {
    where := [];
    var i := 0;
    while i < |filters|
      invariant 0 <= i <= |filters|
      invariant where == Transformed(filters[..i], schema)
    {
      var e := filters[i];
      assert filters[..i + 1][..i] == filters[..i];
      if e.value.Some? && e.value.value != "" {
        if e.key == "hideEmpty" {
          where := Assign(where, "OR", HideEmptyClause(e.value.value));
        } else {
          where := Assign(where, e.key, Equals(Coerce(e.key, e.value.value, Some(schema))));
        }
      }
      i := i + 1;
    }
    assert filters[..i] == filters;
  }

  /**
   * For a filter object (distinct keys): `hideEmpty` is never a where key;
   * `OR` holds the clause of a non-empty `hideEmpty` value (when the filters
   * have no `OR` key of their own); every other key holds `{ equals }` of
   * its non-empty value, numeric when declared `"number"`.
   */
  lemma {:induction false} TransformedFind(filters: Record<Option<string>>, schema: Schema, k: string)
    requires DistinctKeys(filters)
    ensures k == "hideEmpty" ==> Find(Transformed(filters, schema), k).None?
    ensures k == "OR" && Find(filters, "OR").None? ==>
              Find(Transformed(filters, schema), k) ==
              match Find(filters, "hideEmpty")
              case Some(v) => if Skipped(v) then None else Some(HideEmptyClause(v.value))
              case None => None
    ensures k != "hideEmpty" && k != "OR" ==>
              Find(Transformed(filters, schema), k) ==
              match Find(filters, k)
              case Some(v) => if Skipped(v) then None else Some(Equals(Coerce(k, v.value, Some(schema))))
              case None => None
    decreases |filters|
  {
    if filters != [] {
      var init, last := filters[..|filters| - 1], filters[|filters| - 1];
      assert filters == init + [last];
      LastKeyFresh(filters);
      TransformedFind(init, schema, k);
      FindAppend(init, last, k);
      FindAppend(init, last, "hideEmpty");
      FindAppend(init, last, "OR");
      var before := Transformed(init, schema);
      if !Skipped(last.value) {
        if last.key == "hideEmpty" {
          AssignFind(before, "OR", HideEmptyClause(last.value.value), k);
        } else {
          AssignFind(before, last.key, Equals(Coerce(last.key, last.value.value, Some(schema))), k);
        }
      }
    }
  }

  /** The request variables: `take` 10, the unclamped `skip`, and the transformed filters unless empty. */
  function Request(page: int, filters: Record<Option<string>>): (v: Variables<Clause>)
    ensures v.take == PerPage && v.skip == Skip(page)
    ensures v.where.None? <==> |Transformed(filters, QuerySchema)| == 0
    ensures v.where.Some? ==> v.where.value == Transformed(filters, QuerySchema)
  {
    RequestVariables(Skip(page), Transformed(filters, QuerySchema))
  }

  /** A negative `page` in the query string reaches the request as a negative `skip`. */
  lemma NegativePageRequested(n: int, filters: Record<Option<string>>)
    requires n < 0
    ensures QueryParams.DecodePage([Param("page", IntToString(n))]) == n
    ensures Request(QueryParams.DecodePage([Param("page", IntToString(n))]), filters).skip == PerPage * (n - 1) < 0
  {
    ToNumberIntToString(n);
  }

  /** `result { stateRoot }`. */
  datatype BlockResult = BlockResult(stateRoot: Option<string>)

  /** A block as the indexer returns it; `transactionCount` is `_count?.transactions`. */
  datatype BlockRecord = BlockRecord(height: string, hash: string, result: Option<BlockResult>, transactionCount: Option<int>)

  /** A table row; an undefined field is `None`. */
  datatype Row = Row(height: string, hash: string, transactions: Option<string>, stateRoot: Option<string>)

  /** The row of one block; `None` when `item.result` is missing and `item.result.stateRoot` throws. */
  function RowOf(b: BlockRecord): (r: Option<Row>)
    ensures r.None? <==> b.result.None?
    ensures r.Some? ==> r.value.height == b.height && r.value.hash == b.hash
    ensures r.Some? ==> r.value.stateRoot == b.result.value.stateRoot
    ensures r.Some? ==> (r.value.transactions.None? <==> b.transactionCount.None?)
    ensures r.Some? && b.transactionCount.Some? ==> r.value.transactions.value == IntToString(b.transactionCount.value)
    ensures r.Some? && b.transactionCount.Some? ==> ToNumber(r.value.transactions.value) == Finite(b.transactionCount.value)
  {
    if b.result.None? then None
    else
      var count := if b.transactionCount.Some? then Some(IntToString(b.transactionCount.value)) else None;
      if b.transactionCount.Some? then ToNumberIntToString(b.transactionCount.value); Some(Row(b.height, b.hash, count, b.result.value.stateRoot))
      else Some(Row(b.height, b.hash, count, b.result.value.stateRoot))
  }

  /** `blocks.map(…)`: all rows, in response order, or `None` when some block throws. */
  function Rows(bs: seq<BlockRecord>): (rs: Option<seq<Row>>)
    ensures rs.Some? <==> forall i :: 0 <= i < |bs| ==> bs[i].result.Some?
    ensures rs.Some? ==> |rs.value| == |bs| && forall i :: 0 <= i < |bs| ==> RowOf(bs[i]) == Some(rs.value[i])
  {
    if bs == [] then Some([])
    else
      var head := RowOf(bs[0]);
      var tail := Rows(bs[1..]);
      if head.None? || tail.None? then
        assert head.None? ==> bs[0].result.None?;
        assert tail.None? ==> exists i :: 0 <= i < |bs| - 1 && bs[1..][i].result.None?;
        None
      else Some([head.value] + tail.value)
  }

  /** `result.data?.blocks` and `result.data?.aggregateBlock?._count?._all`. */
  datatype Response = Response(blocks: Option<seq<BlockRecord>>, total: Option<int>)

  /** The state a fetch leaves: rows and total on success; no rows and the old total when the request fails or a row throws. */
  function AfterFetch(s: PageState<Row>, outcome: Outcome<Response>): (t: PageState<Row>)
    ensures !t.loading
    ensures outcome.Received? && outcome.response.blocks.None? ==>
              t.items.None? && t.totalCount == CountText(outcome.response.total) &&
              ToNumber(t.totalCount) == Finite(outcome.response.total.GetOr(0))
    ensures outcome.Received? && outcome.response.blocks.Some? && Rows(outcome.response.blocks.value).Some? ==>
              t.items == Rows(outcome.response.blocks.value) && t.totalCount == CountText(outcome.response.total) &&
              ToNumber(t.totalCount) == Finite(outcome.response.total.GetOr(0))
    ensures outcome.Failed? || (outcome.response.blocks.Some? && Rows(outcome.response.blocks.value).None?) ==>
              t.items == Some([]) && t.totalCount == s.totalCount
  {
    match outcome
    case Failed => FailedKeepingTotal(s)
    case Received(r) =>
      if r.blocks.None? then Loaded(None, r.total)
      else if Rows(r.blocks.value).None? then FailedKeepingTotal(s)
      else Loaded(Rows(r.blocks.value), r.total)
  }

  /** The fields the table reads from a row. */
  function Fields(row: Row): DataTable.Item {
    var optional := (if row.transactions.Some? then map["transactions" := row.transactions.value] else map[])
      + (if row.stateRoot.Some? then map["stateRoot" := row.stateRoot.value] else map[]);
    optional["height" := row.height]["hash" := row.hash]
  }

  /** Clicking a row opens that block's page. */
  lemma RowLink(row: Row)
    ensures DataTable.RowClick(Some(NavigationPath), Fields(row)) == Some("/blocks/" + row.hash)
  {
    var key := "hash";
    assert NavigationPath == "/blocks/" + "{" + key + "}";
    assert forall i :: 0 <= i < |key| ==> DataTable.IsWordChar(key[i]);
    DataTable.RowClickPlaceholder("/blocks/", key, Fields(row));
    assert DataTable.FieldText(Fields(row), key) == row.hash;
  }
}
