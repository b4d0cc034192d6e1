/**
 * `buildWhere` from the shared utilities: turns a filter object into a
 * GraphQL where-object whose every entry is `{ equals: v }`, skipping empty
 * values and coercing by the declared kind.
 */
module Utils {
  import opened Wrappers
  import opened Js
  import opened Records
  import opened FilterSchema

  /** The operand of `{ equals: v }`: `String(value)` or `Number(value)`. */
  datatype Scalar = Text(s: string) | Numeric(n: JsNumber)

  /** A where-object: key to the operand of its `equals` condition. */
  type Where = Record<Scalar>

  /** `value == null || value === ""`: the entry contributes nothing. */
  predicate Skipped(value: Option<string>) {
    value.None? || value.value == ""
  }

  /** A key declared `"number"` gets `Number(value)`; every other key, declared or not, `String(value)`. */
  function Coerce(key: string, value: string, schema: Option<Schema>): (r: Scalar)
    ensures r.Numeric? <==> schema.Some? && key in schema.value && schema.value[key] == NumberKind
    ensures r.Numeric? ==> r.n == ToNumber(value)
    ensures r.Text? ==> r.s == value
  {
    if schema.Some? && key in schema.value && schema.value[key] == NumberKind then Numeric(ToNumber(value))
    else Text(value)
  }

  /** The effect of one `forEach` turn on the where-object. */
  function WhereStep(where: Where, e: Entry<Option<string>>, schema: Option<Schema>): Where {
    if Skipped(e.value) then where else Assign(where, e.key, Coerce(e.key, e.value.value, schema))
  }

  /** The where-object after the `forEach` has visited every entry, in order. */
  function WhereOf(filters: Record<Option<string>>, schema: Option<Schema>): Where {
    if filters == [] then []
    else WhereStep(WhereOf(filters[..|filters| - 1], schema), filters[|filters| - 1], schema)
  }

  /** `buildWhere(filters, schema)`. */
  method BuildWhere(filters: Option<Record<Option<string>>>, schema: Option<Schema>) returns (where: Where)
    ensures where == WhereOf(filters.GetOr([]), schema)
    ensures filters.None? ==> where == []
  {
    var entries := filters.GetOr([]);
    where := [];
    var i := 0;
    while i < |entries|
      invariant 0 <= i <= |entries|
      invariant where == WhereOf(entries[..i], schema)
    {
      var e := entries[i];
      assert entries[..i + 1][..i] == entries[..i];
      if !Skipped(e.value) {
        where := Assign(where, e.key, Coerce(e.key, e.value.value, schema));
      }
      i := i + 1;
    }
    assert entries[..i] == entries;
  }

  /**
   * For a filter object (distinct keys), a key has an entry in the
   * where-object exactly when its value is neither missing nor empty, and
   * that entry is the coerced value.
   */
  lemma {:induction false} WhereOfFind(filters: Record<Option<string>>, schema: Option<Schema>, k: string)
    requires DistinctKeys(filters)
    ensures Find(WhereOf(filters, schema), k) ==
            match Find(filters, k)
            case Some(v) => if Skipped(v) then None else Some(Coerce(k, v.value, schema))
            case None => None
    decreases |filters|
  {
    if filters != [] {
      var init, last := filters[..|filters| - 1], filters[|filters| - 1];
      assert filters == init + [last];
      LastKeyFresh(filters);
      WhereOfFind(init, schema, k);
      FindAppend(init, last, k);
      if !Skipped(last.value) {
        AssignFind(WhereOf(init, schema), last.key, Coerce(last.key, last.value.value, schema), k);
      }
    }
  }

  /** Each key appears at most once in the where-object. */
  lemma {:induction false} WhereOfDistinct(filters: Record<Option<string>>, schema: Option<Schema>)
    ensures DistinctKeys(WhereOf(filters, schema))
    decreases |filters|
  {
    if filters != [] {
      var init, last := filters[..|filters| - 1], filters[|filters| - 1];
      WhereOfDistinct(init, schema);
      if !Skipped(last.value) {
        AssignDistinct(WhereOf(init, schema), last.key, Coerce(last.key, last.value.value, schema));
      }
    }
  }
}
