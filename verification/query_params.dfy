/**
 * The list-state hook `useQueryParams`: the (page, view, filters) triple of a
 * list page, decoded from the query string when the page mounts and written
 * back to it after every change. Filters that do not fit the filter schema
 * are deleted from the filter object in place before the query string is
 * written, so they never reach the URL.
 */
module QueryParams {
  import opened Wrappers
  import opened Js
  import opened Records
  import opened SearchParams
  import opened FilterSchema

  /** `Record<string, string | undefined>`: the filter set of a list page. */
  type Filters = Record<Option<string>>

  /** `isValidFilter(key, value, allowed)`. */
  predicate IsValidFilter(key: string, value: Option<string>, allowed: Schema)
    ensures IsValidFilter(key, value, allowed) ==> value.Some? && value.value != [] && key in allowed
    ensures key in allowed && allowed[key] == BooleanKind ==>
              (IsValidFilter(key, value, allowed) <==> value == Some("true"))
    ensures key in allowed && allowed[key] == NumberKind ==>
              (IsValidFilter(key, value, allowed) <==> value.Some? && value.value != [] && ToNumber(value.value) != NaN)
    ensures key in allowed && allowed[key] == StringKind ==>
              (IsValidFilter(key, value, allowed) <==> value.Some? && value.value != [])
  {
    if value.None? || value.value == "" then false
    else if key !in allowed then false
    else match allowed[key]
      case NumberKind => ToNumber(value.value) != NaN
      case BooleanKind => value.value == "true"
      case StringKind => true
  }

  /** `Number(searchParams.get("page")) || 1`: a missing, zero or non-numeric page is 1. */
  function PageNumber(raw: Option<string>): (page: int)
    ensures page != 0
    ensures raw.None? ==> page == 1
    ensures raw.Some? && ToNumber(raw.value).Truthy() ==> page == ToNumber(raw.value).value
    ensures raw.Some? && !ToNumber(raw.value).Truthy() ==> page == 1
  {
    var n := if raw.None? then Finite(0) else ToNumber(raw.value);
    if n.Truthy() then n.value else 1
  }

  function DecodePage(location: seq<Param>): int {
    PageNumber(Get(location, "page"))
  }

  /** The initial view: every column key, in declaration order. */
  function InitialView(columns: Record<string>): (view: seq<string>)
    ensures |view| == |columns|
    ensures forall i :: 0 <= i < |columns| ==> view[i] == columns[i].key
  {
    Keys(columns)
  }

  function ParamEntries(ps: seq<Param>): (r: Filters)
    ensures |r| == |ps|
    ensures forall i :: 0 <= i < |ps| ==> r[i] == Entry(ps[i].name, Some(ps[i].value))
  {
    if ps == [] then [] else [Entry(ps[0].name, Some(ps[0].value))] + ParamEntries(ps[1..])
  }

  /** The initial filters: the pairs of the nested `filters` parameter, assigned in order. */
  function DecodeFilters(location: seq<Param>): Filters {
    match Get(location, "filters")
    case None => []
    case Some(s) => AssignAll([], ParamEntries(FromString(s)))
  }

  lemma DecodeFiltersDistinct(location: seq<Param>)
    ensures DistinctKeys(DecodeFilters(location))
  {
    if Get(location, "filters").Some? {
      AssignAllKeepsDistinct([], ParamEntries(FromString(Get(location, "filters").value)));
    }
  }

  /** The entries the cleaning loop keeps: the valid ones, in their order. */
  function ValidEntries(filters: Filters, allowed: Schema): Filters {
    if filters == [] then []
    else
      (if IsValidFilter(filters[0].key, filters[0].value, allowed) then [filters[0]] else [])
      + ValidEntries(filters[1..], allowed)
  }

  predicate AllValid(filters: Filters, allowed: Schema) {
    forall i :: 0 <= i < |filters| ==> IsValidFilter(filters[i].key, filters[i].value, allowed)
  }

  /** The object as `URLSearchParams` sees it (an undefined value would be written "undefined"). */
  function FilterParams(filters: Filters): (ps: seq<Param>)
    ensures |ps| == |filters|
  {
    if filters == [] then []
    else [Param(filters[0].key, filters[0].value.GetOr("undefined"))] + FilterParams(filters[1..])
  }

  /** The encoding effect: the query string written after any change of the triple. */
  function EncodeLocation(location: seq<Param>, page: int, view: seq<string>, columnKeys: seq<string>,
                          filters: Filters, allowed: Schema): seq<Param>
  {
    var withPage := if page != 1 then Set(location, "page", IntToString(page)) else Delete(location, "page");
    var withView := if Join(view, ',') != Join(columnKeys, ',') then Set(withPage, "view", Join(view, ','))
                    else Delete(withPage, "view");
    var kept := ValidEntries(filters, allowed);
    if |kept| > 0 then Set(withView, "filters", Serialize(FilterParams(kept)))
    else Delete(withView, "filters")
  }

  // ---------------------------------------------------------------------
  // The cleaned filter set.

  lemma {:induction false} ValidEntriesAppend(a: Filters, b: Filters, allowed: Schema)
    ensures ValidEntries(a + b, allowed) == ValidEntries(a, allowed) + ValidEntries(b, allowed)
  {
    if a != [] {
      var head := if IsValidFilter(a[0].key, a[0].value, allowed) then [a[0]] else [];
      calc {
        ValidEntries(a + b, allowed);
      == { assert (a + b)[0] == a[0]; assert (a + b)[1..] == a[1..] + b; }
        head + ValidEntries(a[1..] + b, allowed);
      == { ValidEntriesAppend(a[1..], b, allowed); }
        head + (ValidEntries(a[1..], allowed) + ValidEntries(b, allowed));
      ==
        (head + ValidEntries(a[1..], allowed)) + ValidEntries(b, allowed);
      }
    } else {
      assert a + b == b;
    }
  }

  /** What is kept is valid, and every valid entry is kept: the kept entries are exactly the valid ones. */
  lemma {:induction false} ValidEntriesExact(filters: Filters, allowed: Schema, e: Entry<Option<string>>)
    ensures e in ValidEntries(filters, allowed) <==> e in filters && IsValidFilter(e.key, e.value, allowed)
  {
    if filters != [] {
      ValidEntriesExact(filters[1..], allowed, e);
    }
  }

  lemma {:induction false} ValidEntriesAllValid(filters: Filters, allowed: Schema)
    ensures AllValid(ValidEntries(filters, allowed), allowed)
  {
    if filters != [] {
      ValidEntriesAllValid(filters[1..], allowed);
    }
  }

  lemma {:induction false} ValidEntriesOfValid(filters: Filters, allowed: Schema)
    requires AllValid(filters, allowed)
    ensures ValidEntries(filters, allowed) == filters
  {
    if filters != [] {
      ValidEntriesOfValid(filters[1..], allowed);
    }
  }

  /** Cleaning twice is cleaning once. */
  lemma ValidEntriesIdempotent(filters: Filters, allowed: Schema)
    ensures ValidEntries(ValidEntries(filters, allowed), allowed) == ValidEntries(filters, allowed)
  {
    ValidEntriesAllValid(filters, allowed);
    ValidEntriesOfValid(ValidEntries(filters, allowed), allowed);
  }

  lemma {:induction false} ValidEntriesKeys(filters: Filters, allowed: Schema, k: string)
    requires HasKey(ValidEntries(filters, allowed), k)
    ensures HasKey(filters, k)
  {
    var v := ValidEntries(filters, allowed);
    var i :| 0 <= i < |v| && v[i].key == k;
    ValidEntriesExact(filters, allowed, v[i]);
    var j :| 0 <= j < |filters| && filters[j] == v[i];
  }

  lemma {:induction false} ValidEntriesDistinct(filters: Filters, allowed: Schema)
    requires DistinctKeys(filters)
    ensures DistinctKeys(ValidEntries(filters, allowed))
  {
    if filters != [] {
      var rest := ValidEntries(filters[1..], allowed);
      ValidEntriesDistinct(filters[1..], allowed);
      if IsValidFilter(filters[0].key, filters[0].value, allowed) {
        forall i | 0 <= i < |rest| ensures rest[i].key != filters[0].key {
          assert HasKey(rest, rest[i].key);
          ValidEntriesKeys(filters[1..], allowed, rest[i].key);
          var j :| 0 <= j < |filters[1..]| && filters[1..][j].key == rest[i].key;
          assert filters[j + 1].key == rest[i].key;
        }
      }
    }
  }

  lemma {:induction false} ParamEntriesOfValid(filters: Filters, allowed: Schema)
    requires AllValid(filters, allowed)
    ensures ParamEntries(FilterParams(filters)) == filters
  {
    if filters != [] {
      ParamEntriesOfValid(filters[1..], allowed);
    }
  }

  // ---------------------------------------------------------------------
  // What the encoding effect writes.

  /** `page` is absent exactly when the page is 1, and is its decimal form otherwise. */
  lemma EncodePage(location: seq<Param>, page: int, view: seq<string>, columnKeys: seq<string>,
                   filters: Filters, allowed: Schema)
    ensures Get(EncodeLocation(location, page, view, columnKeys, filters, allowed), "page") ==
            if page == 1 then None else Some(IntToString(page))
  {
    var withPage := if page != 1 then Set(location, "page", IntToString(page)) else Delete(location, "page");
    if page != 1 { SetGet(location, "page", IntToString(page), "page"); } else { DeleteGet(location, "page", "page"); }
    var withView := if Join(view, ',') != Join(columnKeys, ',') then Set(withPage, "view", Join(view, ','))
                    else Delete(withPage, "view");
    if Join(view, ',') != Join(columnKeys, ',') { SetGet(withPage, "view", Join(view, ','), "page"); }
    else { DeleteGet(withPage, "view", "page"); }
    var kept := ValidEntries(filters, allowed);
    if |kept| > 0 { SetGet(withView, "filters", Serialize(FilterParams(kept)), "page"); }
    else { DeleteGet(withView, "filters", "page"); }
  }

  /** `view` is absent exactly when the joined view equals the joined column keys. */
  lemma EncodeView(location: seq<Param>, page: int, view: seq<string>, columnKeys: seq<string>,
                   filters: Filters, allowed: Schema)
    ensures Get(EncodeLocation(location, page, view, columnKeys, filters, allowed), "view") ==
            if Join(view, ',') == Join(columnKeys, ',') then None else Some(Join(view, ','))
  {
    var withPage := if page != 1 then Set(location, "page", IntToString(page)) else Delete(location, "page");
    var withView := if Join(view, ',') != Join(columnKeys, ',') then Set(withPage, "view", Join(view, ','))
                    else Delete(withPage, "view");
    if Join(view, ',') != Join(columnKeys, ',') { SetGet(withPage, "view", Join(view, ','), "view"); }
    else { DeleteGet(withPage, "view", "view"); }
    var kept := ValidEntries(filters, allowed);
    if |kept| > 0 { SetGet(withView, "filters", Serialize(FilterParams(kept)), "view"); }
    else { DeleteGet(withView, "filters", "view"); }
  }

  /** `filters` is written exactly when some entry survives cleaning, and holds the survivors. */
  lemma EncodeFilters(location: seq<Param>, page: int, view: seq<string>, columnKeys: seq<string>,
                      filters: Filters, allowed: Schema)
    ensures Get(EncodeLocation(location, page, view, columnKeys, filters, allowed), "filters") ==
            if |ValidEntries(filters, allowed)| > 0 then Some(Serialize(FilterParams(ValidEntries(filters, allowed))))
            else None
  {
    var withPage := if page != 1 then Set(location, "page", IntToString(page)) else Delete(location, "page");
    var withView := if Join(view, ',') != Join(columnKeys, ',') then Set(withPage, "view", Join(view, ','))
                    else Delete(withPage, "view");
    var kept := ValidEntries(filters, allowed);
    if |kept| > 0 { SetGet(withView, "filters", Serialize(FilterParams(kept)), "filters"); }
    else { DeleteGet(withView, "filters", "filters"); }
  }

  /** Every parameter other than `page`, `view` and `filters` is carried over, in order. */
  lemma EncodeKeepsOtherParams(location: seq<Param>, page: int, view: seq<string>, columnKeys: seq<string>,
                               filters: Filters, allowed: Schema)
    ensures Delete(Delete(Delete(EncodeLocation(location, page, view, columnKeys, filters, allowed),
              "page"), "view"), "filters") ==
            Delete(Delete(Delete(location, "page"), "view"), "filters")
  {
    var withPage := if page != 1 then Set(location, "page", IntToString(page)) else Delete(location, "page");
    assert Delete(withPage, "page") == Delete(location, "page") by {
      if page != 1 { SetDelete(location, "page", IntToString(page)); } else { DeleteIdempotent(location, "page"); }
    }
    var withView := if Join(view, ',') != Join(columnKeys, ',') then Set(withPage, "view", Join(view, ','))
                    else Delete(withPage, "view");
    assert Delete(withView, "view") == Delete(withPage, "view") by {
      if Join(view, ',') != Join(columnKeys, ',') { SetDelete(withPage, "view", Join(view, ',')); }
      else { DeleteIdempotent(withPage, "view"); }
    }
    var kept := ValidEntries(filters, allowed);
    var result := if |kept| > 0 then Set(withView, "filters", Serialize(FilterParams(kept)))
                  else Delete(withView, "filters");
    assert Delete(result, "filters") == Delete(withView, "filters") by {
      if |kept| > 0 { SetDelete(withView, "filters", Serialize(FilterParams(kept))); }
      else { DeleteIdempotent(withView, "filters"); }
    }
    calc {
      Delete(Delete(Delete(result, "page"), "view"), "filters");
    == { DeleteCommutes(Delete(result, "page"), "view", "filters"); DeleteCommutes(result, "page", "filters"); }
      Delete(Delete(Delete(result, "filters"), "page"), "view");
    ==
      Delete(Delete(Delete(withView, "filters"), "page"), "view");
    == { DeleteCommutes(withView, "filters", "page"); DeleteCommutes(Delete(withView, "page"), "filters", "view"); }
      Delete(Delete(Delete(withView, "page"), "view"), "filters");
    == { DeleteCommutes(withView, "page", "view"); }
      Delete(Delete(Delete(withView, "view"), "page"), "filters");
    ==
      Delete(Delete(Delete(withPage, "view"), "page"), "filters");
    == { DeleteCommutes(withPage, "view", "page"); }
      Delete(Delete(Delete(withPage, "page"), "view"), "filters");
    ==
      Delete(Delete(Delete(location, "page"), "view"), "filters");
    }
  }

  // ---------------------------------------------------------------------
  // Round trips through the query string.

  /** Reloading the written URL gives back the page (every page but 0, which reads back as 1). */
  lemma PageRoundTrip(location: seq<Param>, page: int, view: seq<string>, columnKeys: seq<string>,
                      filters: Filters, allowed: Schema)
    ensures DecodePage(EncodeLocation(location, page, view, columnKeys, filters, allowed)) ==
            if page == 0 then 1 else page
  {
    EncodePage(location, page, view, columnKeys, filters, allowed);
    ToNumberIntToString(page);
  }

  /** Reloading the written URL gives back exactly the filter entries that pass validation. */
  lemma FiltersRoundTrip(location: seq<Param>, page: int, view: seq<string>, columnKeys: seq<string>,
                         filters: Filters, allowed: Schema)
    requires DistinctKeys(filters)
    ensures DecodeFilters(EncodeLocation(location, page, view, columnKeys, filters, allowed)) ==
            ValidEntries(filters, allowed)
  {
    EncodeFilters(location, page, view, columnKeys, filters, allowed);
    var kept := ValidEntries(filters, allowed);
    if |kept| > 0 {
      FromStringSerialize(FilterParams(kept));
      ValidEntriesAllValid(filters, allowed);
      ParamEntriesOfValid(kept, allowed);
      ValidEntriesDistinct(filters, allowed);
      assert [] + kept == kept;
      AssignAllDistinct([], kept);
    }
  }

  /**
   * Encoding is stable: decoding the written URL and encoding the decoded
   * page and filters again (with the view unchanged) writes the same URL.
   */
  lemma EncodeStable(location: seq<Param>, page: int, view: seq<string>, columnKeys: seq<string>,
                     filters: Filters, allowed: Schema)
    requires page != 0 && DistinctKeys(filters)
    ensures var written := EncodeLocation(location, page, view, columnKeys, filters, allowed);
            EncodeLocation(written, DecodePage(written), view, columnKeys, DecodeFilters(written), allowed) == written
  {
    var written := EncodeLocation(location, page, view, columnKeys, filters, allowed);
    PageRoundTrip(location, page, view, columnKeys, filters, allowed);
    FiltersRoundTrip(location, page, view, columnKeys, filters, allowed);
    ValidEntriesIdempotent(filters, allowed);
    EncodePage(location, page, view, columnKeys, filters, allowed);
    EncodeView(location, page, view, columnKeys, filters, allowed);
    EncodeFilters(location, page, view, columnKeys, filters, allowed);
    var kept := ValidEntries(filters, allowed);
    var joined := Join(view, ',');
    var defaultView := Join(view, ',') == Join(columnKeys, ',');
    // The page step leaves `written` as it is.
    var withPage := if page != 1 then Set(written, "page", IntToString(page)) else Delete(written, "page");
    if page != 1 {
      WrittenCountOne(location, page, view, columnKeys, filters, allowed, "page");
      SetFixed(written, "page", IntToString(page));
    } else {
      DeleteAbsent(written, "page");
    }
    assert withPage == written;
    var withView := if !defaultView then Set(withPage, "view", joined) else Delete(withPage, "view");
    if !defaultView {
      WrittenCountOne(location, page, view, columnKeys, filters, allowed, "view");
      SetFixed(written, "view", joined);
    } else {
      DeleteAbsent(written, "view");
    }
    assert withView == written;
    if |kept| > 0 {
      WrittenCountOne(location, page, view, columnKeys, filters, allowed, "filters");
      SetFixed(written, "filters", Serialize(FilterParams(kept)));
    } else {
      DeleteAbsent(written, "filters");
    }
  }

  /** Each of the three parameters, when written, occurs exactly once. */
  lemma WrittenCountOne(location: seq<Param>, page: int, view: seq<string>, columnKeys: seq<string>,
                        filters: Filters, allowed: Schema, name: string)
    requires name == "page" || name == "view" || name == "filters"
    requires Get(EncodeLocation(location, page, view, columnKeys, filters, allowed), name).Some?
    ensures Count(EncodeLocation(location, page, view, columnKeys, filters, allowed), name) == 1
  {
    var withPage := if page != 1 then Set(location, "page", IntToString(page)) else Delete(location, "page");
    var joined := Join(view, ',');
    var withView := if joined != Join(columnKeys, ',') then Set(withPage, "view", joined) else Delete(withPage, "view");
    var kept := ValidEntries(filters, allowed);
    var written := EncodeLocation(location, page, view, columnKeys, filters, allowed);
    EncodePage(location, page, view, columnKeys, filters, allowed);
    EncodeView(location, page, view, columnKeys, filters, allowed);
    EncodeFilters(location, page, view, columnKeys, filters, allowed);
    if name == "filters" {
      SetCount(withView, "filters", Serialize(FilterParams(kept)));
    } else {
      assert Count(withView, name) == 1 by {
        if name == "page" {
          SetCount(location, "page", IntToString(page));
          if joined != Join(columnKeys, ',') { SetOtherCount(withPage, "view", joined, "page"); }
          else { DeleteOtherCount(withPage, "view", "page"); }
        } else {
          SetCount(withPage, "view", joined);
        }
      }
      if |kept| > 0 { SetOtherCount(withView, "filters", Serialize(FilterParams(kept)), name); }
      else { DeleteOtherCount(withView, "filters", name); }
    }
  }

  // ---------------------------------------------------------------------
  // The default view.

  predicate PlainKeys(keys: seq<string>) {
    forall i :: 0 <= i < |keys| ==> keys[i] != [] && ',' !in keys[i]
  }

  lemma {:induction false} JoinInjective(a: seq<string>, b: seq<string>)
    requires PlainKeys(a) && PlainKeys(b)
    requires Join(a, ',') == Join(b, ',')
    ensures a == b
  {
    if a == [] || b == [] {
      JoinNonEmpty(a);
      JoinNonEmpty(b);
    } else {
      var ja, jb := Join(a, ','), Join(b, ',');
      var ia, ib := IndexOf(ja, ','), IndexOf(jb, ',');
      JoinHead(a);
      JoinHead(b);
      assert a[0] == ja[..ia] == jb[..ib] == b[0];
      if |a| == 1 || |b| == 1 {
        assert |a| == 1 && |b| == 1;
      } else {
        assert ja[ia + 1..] == Join(a[1..], ',');
        JoinInjective(a[1..], b[1..]);
      }
    }
  }

  lemma JoinNonEmpty(a: seq<string>)
    ensures a != [] && PlainKeys(a) ==> |Join(a, ',')| > 0
  {
    if a != [] && PlainKeys(a) {
      JoinHead(a);
    }
  }

  lemma JoinHead(a: seq<string>)
    requires |a| > 0 && PlainKeys(a)
    ensures var j := Join(a, ','); var i := IndexOf(j, ',');
            i == |a[0]| && j[..i] == a[0] && (i < |j| <==> |a| > 1) &&
            (|a| > 1 ==> j[i + 1..] == Join(a[1..], ','))
  {
    var j := Join(a, ',');
    assert forall k :: 0 <= k < |a[0]| ==> j[k] == a[0][k];
    if |a| > 1 {
      assert j[|a[0]|] == ',';
      assert j[|a[0]| + 1..] == Join(a[1..], ',');
    }
  }

  /** For plain column keys, the view parameter is omitted exactly when the view is the full default view. */
  lemma ViewOmittedIffDefault(location: seq<Param>, page: int, view: seq<string>, columnKeys: seq<string>,
                              filters: Filters, allowed: Schema)
    requires PlainKeys(view) && PlainKeys(columnKeys)
    ensures Get(EncodeLocation(location, page, view, columnKeys, filters, allowed), "view").None? <==>
            view == columnKeys
  {
    EncodeView(location, page, view, columnKeys, filters, allowed);
    if Join(view, ',') == Join(columnKeys, ',') {
      JoinInjective(view, columnKeys);
    }
  }

  // ---------------------------------------------------------------------
  // The hook's state.

  /** The state `useQueryParams` keeps for one list page. */
  class ListState {
    const columnKeys: seq<string>
    const allowed: Schema
    var page: int
    var view: seq<string>
    var filters: Filters

    ghost predicate Valid()
      reads this
    {
      DistinctKeys(filters)
    }

    /** Mounting: decode the triple from the current location. */
    constructor (columns: Record<string>, allowed: Schema, location: seq<Param>)
      ensures Valid()
      ensures columnKeys == Keys(columns) && this.allowed == allowed
      ensures page == DecodePage(location) && view == InitialView(columns) && filters == DecodeFilters(location)
    {
      columnKeys := Keys(columns);
      this.allowed := allowed;
      view := Keys(columns);
      var raw := Get(location, "filters");
      var decoded: Filters := [];
      if raw.Some? {
        var pairs := FromString(raw.value);
        var i := 0;
        while i < |pairs|
          invariant 0 <= i <= |pairs|
          invariant AssignAll(decoded, ParamEntries(pairs[i..])) == AssignAll([], ParamEntries(pairs))
        {
          assert ParamEntries(pairs[i..])[1..] == ParamEntries(pairs[i + 1..]);
          decoded := Assign(decoded, pairs[i].name, Some(pairs[i].value));
          i := i + 1;
        }
      }
      filters := decoded;
      page := DecodePage(location);
      DecodeFiltersDistinct(location);
    }

    method SetPage(p: int)
      modifies this`page
      ensures page == p
    {
      page := p;
    }

    method SetView(v: seq<string>)
      modifies this`view
      ensures view == v
    {
      view := v;
    }

    method SetFilters(f: Filters)
      requires DistinctKeys(f)
      modifies this`filters
      ensures Valid() && filters == f
    {
      filters := f;
    }

    /** The effect that follows changes of the `page` parameter; view and filters are not re-read. */
    method ResyncPage(location: seq<Param>)
      modifies this`page
      ensures page == DecodePage(location)
    {
      page := DecodePage(location);
    }

    /** The cleaning loop: `for (const [key, value] of Object.entries(filters)) if (!isValidFilter(...)) delete filters[key]`. */
    method DeleteInvalidFilters()
      requires Valid()
      modifies this`filters
      ensures Valid() && AllValid(filters, allowed)
      ensures filters == ValidEntries(old(filters), allowed)
    {
      var entries := filters;
      var i := 0;
      while i < |entries|
        invariant 0 <= i <= |entries|
        invariant DistinctKeys(entries)
        invariant filters == ValidEntries(entries[..i], allowed) + entries[i..]
      {
        var e := entries[i];
        CleanStep(entries, i, allowed);
        if !IsValidFilter(e.key, e.value, allowed) {
          filters := Remove(filters, e.key);
        }
        i := i + 1;
      }
      assert entries[..i] == entries;
      ValidEntriesAllValid(entries, allowed);
      ValidEntriesDistinct(entries, allowed);
    }

    /**
     * The encoding effect: deletes every invalid filter from `filters` in
     * place and returns the location to navigate to.
     */
    method Sync(location: seq<Param>) returns (next: seq<Param>)
      requires Valid()
      modifies this`filters
      ensures Valid() && AllValid(filters, allowed)
      ensures filters == ValidEntries(old(filters), allowed)
      ensures next == EncodeLocation(location, page, view, columnKeys, old(filters), allowed)
    {
      var params := location;
      if page != 1 {
        params := Set(params, "page", IntToString(page));
      } else {
        params := Delete(params, "page");
      }
      if Join(view, ',') != Join(columnKeys, ',') {
        params := Set(params, "view", Join(view, ','));
      } else {
        params := Delete(params, "view");
      }
      DeleteInvalidFilters();
      if |filters| > 0 {
        params := Set(params, "filters", Serialize(FilterParams(filters)));
      } else {
        params := Delete(params, "filters");
      }
      next := params;
    }
  }

  /** One turn of the cleaning loop: deleting the current key if invalid advances the invariant. */
  lemma CleanStep(entries: Filters, i: nat, allowed: Schema)
    requires DistinctKeys(entries) && i < |entries|
    ensures var e := entries[i];
            var before := ValidEntries(entries[..i], allowed) + entries[i..];
            (if IsValidFilter(e.key, e.value, allowed) then before else Remove(before, e.key)) ==
            ValidEntries(entries[..i + 1], allowed) + entries[i + 1..]
  {
    var e := entries[i];
    var done := ValidEntries(entries[..i], allowed);
    ValidEntriesAppend(entries[..i], [e], allowed);
    assert [e][1..] == [];
    assert entries[..i + 1] == entries[..i] + [e];
    assert entries[i..] == [e] + entries[i + 1..];
    assert done + entries[i..] == done + [e] + entries[i + 1..];
    if !IsValidFilter(e.key, e.value, allowed) {
      KeyNotElsewhere(entries, i, allowed);
      RemoveMiddle(done, e, entries[i + 1..]);
    }
  }

  lemma KeyNotElsewhere(entries: Filters, i: nat, allowed: Schema)
    requires DistinctKeys(entries) && i < |entries|
    ensures !HasKey(ValidEntries(entries[..i], allowed), entries[i].key)
    ensures !HasKey(entries[i + 1..], entries[i].key)
  {
    var k := entries[i].key;
    var v := ValidEntries(entries[..i], allowed);
    forall m | 0 <= m < |v| ensures v[m].key != k {
      ValidEntriesExact(entries[..i], allowed, v[m]);
      var j :| 0 <= j < i && entries[..i][j] == v[m];
      assert entries[j] == v[m];
    }
    var rest := entries[i + 1..];
    forall m | 0 <= m < |rest| ensures rest[m].key != k {
      assert rest[m] == entries[i + 1 + m];
    }
  }
}
