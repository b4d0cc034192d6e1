/**
 * The filter panel's "Clear filters" action: every listed field is reset,
 * then the form is validated, then the submit callback (if any) runs.
 */
module FilterPanel {
  import opened Wrappers
  import opened Records
  import opened FilterSchema
  import opened FilterBuilder

  /** What the panel does to the form, in order. */
  datatype FormEvent = ValueSet(name: string, value: FormValue) | Validated | Submitted

  /** `f.initialValue ?? (f.type === "boolean" ? false : "")`. */
  function ClearValue(f: FieldDef): (v: FormValue)
    ensures f.initialValue.Some? ==> v == f.initialValue.value
    ensures f.initialValue.None? && f.kind == BooleanKind ==> v == Flag(false)
    ensures f.initialValue.None? && f.kind != BooleanKind ==> v == Text("")
    ensures !v.Unset?
  {
    f.initialValue.GetOr(if f.kind == BooleanKind then Flag(false) else Text(""))
  }

  /** The form values after `setValue` for every listed field, in order. */
  function ResetValues(values: Record<FormValue>, fields: seq<FieldDef>): Record<FormValue> {
    if fields == [] then values
    else
      var last := fields[|fields| - 1];
      Assign(ResetValues(values, fields[..|fields| - 1]), last.name, ClearValue(last))
  }

  predicate DistinctNames(fields: seq<FieldDef>) {
    forall i, j :: 0 <= i < j < |fields| ==> fields[i].name != fields[j].name
  }

  /** A form value whose name is not among the fields is left as it was. */
  lemma {:induction false} ResetUntouched(values: Record<FormValue>, fields: seq<FieldDef>, k: string)
    requires forall i :: 0 <= i < |fields| ==> fields[i].name != k
    ensures Find(ResetValues(values, fields), k) == Find(values, k)
  {
    if fields != [] {
      var last := fields[|fields| - 1];
      ResetUntouched(values, fields[..|fields| - 1], k);
      AssignFind(ResetValues(values, fields[..|fields| - 1]), last.name, ClearValue(last), k);
    }
  }

  /** Every listed field ends up holding its clear value. */
  lemma {:induction false} ResetListed(values: Record<FormValue>, fields: seq<FieldDef>, i: nat)
    requires DistinctNames(fields) && i < |fields|
    ensures Find(ResetValues(values, fields), fields[i].name) == Some(ClearValue(fields[i]))
  {
    var init, last := fields[..|fields| - 1], fields[|fields| - 1];
    AssignFind(ResetValues(values, init), last.name, ClearValue(last), fields[i].name);
    if i < |fields| - 1 {
      assert init[i] == fields[i];
      ResetListed(values, init, i);
    }
  }

  /** After "Clear filters", a boolean field with no initial value shows unchecked, and so does a text field without one. */
  lemma ClearedUnchecked(values: Record<FormValue>, fields: seq<FieldDef>, i: nat)
    requires DistinctNames(fields) && i < |fields| && fields[i].initialValue.None?
    ensures Find(ResetValues(values, fields), fields[i].name).Some?
    ensures !Checked(Find(ResetValues(values, fields), fields[i].name).value)
  {
    ResetListed(values, fields, i);
  }

  /** The calls `handleClear` makes: one `setValue` per field, then `trigger()`, then `onSubmit()` when given. */
  function ClearTrace(fields: seq<FieldDef>, hasOnSubmit: bool): (t: seq<FormEvent>)
    ensures |t| == |fields| + 1 + (if hasOnSubmit then 1 else 0)
    ensures forall i :: 0 <= i < |fields| ==> t[i] == ValueSet(fields[i].name, ClearValue(fields[i]))
    ensures t[|fields|] == Validated
    ensures forall i :: 0 <= i < |t| && t[i] == Validated ==> i == |fields|
    ensures Submitted in t <==> hasOnSubmit
    ensures hasOnSubmit ==> t[|t| - 1] == Submitted
  {
    ResetEvents(fields) + [Validated] + (if hasOnSubmit then [Submitted] else [])
  }

  function ResetEvents(fields: seq<FieldDef>): (t: seq<FormEvent>)
    ensures |t| == |fields|
    ensures forall i :: 0 <= i < |fields| ==> t[i] == ValueSet(fields[i].name, ClearValue(fields[i]))
  {
    if fields == [] then []
    else
      var init, last := fields[..|fields| - 1], fields[|fields| - 1];
      var t := ResetEvents(init) + [ValueSet(last.name, ClearValue(last))];
      assert forall i :: 0 <= i < |init| ==> init[i] == fields[i];
      t
  }

  lemma ClearStep(start: Record<FormValue>, fields: seq<FieldDef>, i: nat)
    requires i < |fields|
    ensures ResetValues(start, fields[..i + 1]) == Assign(ResetValues(start, fields[..i]), fields[i].name, ClearValue(fields[i]))
    ensures ResetEvents(fields[..i + 1]) == ResetEvents(fields[..i]) + [ValueSet(fields[i].name, ClearValue(fields[i]))]
  {
    assert fields[..i + 1][..i] == fields[..i];
  }

  /** The filter form: its current values and the calls made on it. */
  class FilterForm {
    var values: Record<FormValue>
    var events: seq<FormEvent>

    constructor (initial: Record<FormValue>)
      ensures values == initial && events == []
    {
      values := initial;
      events := [];
    }

    /** `handleClear`. */
    method HandleClear(fields: seq<FieldDef>, hasOnSubmit: bool)
      modifies this
      ensures values == ResetValues(old(values), fields)
      ensures events == old(events) + ClearTrace(fields, hasOnSubmit)
    {
      ghost var start := values;
      var i := 0;
      while i < |fields|
        invariant 0 <= i <= |fields|
        invariant values == ResetValues(start, fields[..i])
        invariant events == old(events) + ResetEvents(fields[..i])
      {
        var f := fields[i];
        var v := if f.initialValue.Some? then f.initialValue.value else if f.kind == BooleanKind then Flag(false) else Text("");
        ClearStep(start, fields, i);
        values := Assign(values, f.name, v);
        events := events + [ValueSet(f.name, v)];
        i := i + 1;
      }
      assert fields[..i] == fields;
      events := events + [Validated];
      if hasOnSubmit {
        events := events + [Submitted];
      }
    }
  }
}
