/**
 * The pager under every list: whether the previous and next pages exist,
 * which numbered links are shown, and how a click rewrites the query string.
 */
module Pagination {
  import opened Wrappers
  import opened Js
  import opened SearchParams
  import QueryParams

  /** `showPerPage`: the number of rows on every list page. */
  const PerPage: int := 10

  /** `page > 1`. */
  predicate HasPreviousPage(page: int) {
    page > 1
  }

  /** `page * showPerPage < (totalCount ?? 0)`; a comparison with NaN is false. */
  predicate HasNextPage(page: int, total: Option<JsNumber>) {
    match total.GetOr(Finite(0))
    case Finite(t) => page * PerPage < t
    case NaN => false
  }

  /** The page numbers of the numbered links, left to right. */
  function NumberedLinks(page: int, total: Option<JsNumber>): (links: seq<int>)
    ensures 1 <= |links| <= 3
    ensures page in links
    ensures page - 1 in links <==> HasPreviousPage(page)
    ensures page + 1 in links <==> HasNextPage(page, total)
    ensures forall i :: 0 <= i < |links| ==> page - 1 <= links[i] <= page + 1
    ensures forall i :: 0 < i < |links| ==> links[i] == links[i - 1] + 1
  {
    (if HasPreviousPage(page) then [page - 1] else [])
    + [page]
    + (if HasNextPage(page, total) then [page + 1] else [])
  }

  /** On the first page of a list of at most one page, only the current page is linked. */
  lemma SinglePage(total: Option<JsNumber>)
    requires total.None? || (total.value.Finite? && total.value.value <= PerPage) || total.value.NaN?
    ensures NumberedLinks(1, total) == [1]
  {
  }

  /** `navigate(to)`: the current query string with `page` set to `to`. */
  function Navigate(location: seq<Param>, to: int): seq<Param> {
    Set(location, "page", IntToString(to))
  }

  /**
   * After `navigate(to)` the query string holds exactly one `page`, equal to
   * `to` (even when `to` is 1), every other parameter reads as before, and
   * the list reads the page back as `to` unless `to` is 0.
   */
  lemma NavigateSetsPage(location: seq<Param>, to: int, other: string)
    requires other != "page"
    ensures Get(Navigate(location, to), "page") == Some(IntToString(to))
    ensures Count(Navigate(location, to), "page") == 1
    ensures Get(Navigate(location, to), other) == Get(location, other)
    ensures Delete(Navigate(location, to), "page") == Delete(location, "page")
    ensures to != 0 ==> QueryParams.DecodePage(Navigate(location, to)) == to
  {
    var value := IntToString(to);
    SetGet(location, "page", value, "page");
    SetGet(location, "page", value, other);
    SetCount(location, "page", value);
    SetDelete(location, "page", value);
    ToNumberIntToString(to);
  }
}
