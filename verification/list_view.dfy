/**
 * The list frame around every table: the filter button and its count, the
 * placeholder and empty states, the header, the total and the pager.
 */
module ListView {
  import opened Wrappers
  import opened Js
  import opened Records
  import opened SearchParams
  import opened FilterSchema
  import opened QueryParams
  import opened Pagination
  import ListPage

  /** `Array.from(new URLSearchParams(filters)).length`, 0 when there is no `filters` parameter. */
  function ActiveFilterCount(filtersParam: Option<string>): (n: nat)
    ensures filtersParam.None? ==> n == 0
  {
    if filtersParam.None? then 0 else |FromString(filtersParam.value)|
  }

  /** After the query string is written, the button counts exactly the filters that survived cleaning. */
  lemma ActiveFiltersAfterSync(location: seq<Param>, page: int, view: seq<string>, columnKeys: seq<string>,
                               filters: Filters, allowed: Schema)
    ensures ActiveFilterCount(Get(EncodeLocation(location, page, view, columnKeys, filters, allowed), "filters"))
            == |ValidEntries(filters, allowed)|
  {
    EncodeFilters(location, page, view, columnKeys, filters, allowed);
    FromStringSerialize(FilterParams(ValidEntries(filters, allowed)));
  }

  /** `"(n) Filters"` when some filter is active, else `"Filters"`. */
  function FilterButtonLabel(n: nat): (s: string)
    ensures n == 0 ==> s == "Filters"
    ensures n > 0 ==> s == "(" + IntToString(n) + ") Filters"
  {
    if n != 0 then "(" + IntToString(n) + ") Filters" else "Filters"
  }

  /** The number of placeholder rows shown while loading. */
  const PlaceholderRows: nat := 5

  function BodyRowCount(loading: bool, itemCount: nat): (n: nat)
    ensures loading ==> n == PlaceholderRows
    ensures !loading ==> n == itemCount
  {
    if loading then PlaceholderRows else itemCount
  }

  /**
   * The "No data found" message. With at least one column in view it shows
   * exactly when the body has no rows; with none it shows whenever loading
   * is over.
   */
  predicate ShowEmptyState(loading: bool, itemCount: nat, viewLength: nat): (b: bool)
    ensures viewLength > 0 ==> (b <==> BodyRowCount(loading, itemCount) == 0)
    ensures viewLength == 0 ==> (b <==> !loading)
  {
    !loading && (itemCount == 0 || viewLength == 0)
  }

  /** The header cells: every column label when the view is non-empty (whatever it holds), none otherwise. */
  function HeaderLabels(columns: Record<string>, view: seq<string>): (labels: seq<string>)
    ensures |view| == 0 ==> labels == []
    ensures |view| > 0 ==> |labels| == |columns| && forall i :: 0 <= i < |columns| ==> labels[i] == columns[i].value
  {
    if |view| == 0 then [] else Labels(columns)
  }

  function Labels(columns: Record<string>): (labels: seq<string>)
    ensures |labels| == |columns| && forall i :: 0 <= i < |columns| ==> labels[i] == columns[i].value
  {
    if columns == [] then [] else [columns[0].value] + Labels(columns[1..])
  }

  /** `Number(data?.totalCount)`: NaN when there is no data, otherwise what the pager is given. */
  function TotalNumber(totalCount: Option<string>): (n: JsNumber)
    ensures totalCount.None? ==> n == NaN
    ensures totalCount.Some? ==> n == PagerTotal(totalCount)
  {
    if totalCount.None? then NaN else ToNumber(totalCount.value)
  }

  /**
   * "Available entries" shows when not loading and the total is a positive
   * number; never before data has arrived, and never for a total the pager
   * reads as 0.
   */
  predicate ShowAvailableEntries(loading: bool, totalCount: Option<string>): (b: bool)
    ensures b ==> !loading && totalCount.Some?
    ensures b ==> PagerTotal(totalCount).Finite? && PagerTotal(totalCount).value > 0
    ensures !loading && totalCount.Some? && PagerTotal(totalCount).Finite? && PagerTotal(totalCount).value > 0 ==> b
  {
    !loading && TotalNumber(totalCount).Finite? && TotalNumber(totalCount).value > 0
  }

  /** The total handed to the pager: `Number(data?.totalCount ?? "0")`. */
  function PagerTotal(totalCount: Option<string>): (n: JsNumber)
    ensures totalCount.None? ==> n == Finite(0)
  {
    assert "0" == [DigitChar(0)];
    ToNumber(totalCount.GetOr("0"))
  }

  /** The pager shows unless `pagination === false`: it is on when the prop is left out. */
  predicate ShowPagination(pagination: Option<bool>): (b: bool)
    ensures pagination.None? ==> b
    ensures pagination == Some(true) ==> b
    ensures pagination == Some(false) ==> !b
  {
    pagination != Some(false)
  }

  /**
   * For a total written by a list page, "Available entries" shows exactly
   * when the count is positive, and a next page exists exactly when the
   * count exceeds the rows up to the current page.
   */
  lemma LoadedTotal(page: int, total: Option<int>)
    ensures ShowAvailableEntries(false, Some(ListPage.CountText(total))) <==> total.GetOr(0) > 0
    ensures HasNextPage(page, Some(PagerTotal(Some(ListPage.CountText(total))))) <==> page * PerPage < total.GetOr(0)
  {
    ListPage.CountTextNumber(total);
  }

  /**
   * A fetch that fails leaves "No data found" on screen and hides
   * "Available entries" on the pages that reset the total.
   */
  lemma FailedFetchShowsEmptyState<R>(s: ListPage.PageState<R>, viewLength: nat)
    ensures ShowEmptyState(ListPage.FailedKeepingTotal(s).loading, |ListPage.FailedKeepingTotal(s).items.value|, viewLength)
    ensures ShowEmptyState(ListPage.FailedResettingTotal(s).loading, |ListPage.FailedResettingTotal(s).items.value|, viewLength)
    ensures !ShowAvailableEntries(false, Some(ListPage.FailedResettingTotal(s).totalCount))
  {
    assert ListPage.FailedResettingTotal(s).totalCount == ListPage.CountText(None);
    LoadedTotal(1, None);
  }
}
