/**
 * What the four list pages (blocks, transactions, batches, settlements)
 * share: the request window, the GraphQL variables and the state a fetch
 * leaves behind.
 */
module ListPage {
  import opened Wrappers
  import opened Js
  import opened Records
  import opened Pagination

  /** `showPerPage * (page - 1)`, as the blocks and transactions pages compute it. */
  function Skip(page: int): int {
    PerPage * (page - 1)
  }

  /** `showPerPage * (Math.max(1, page) - 1)`, as the batches and settlements pages compute it. */
  function ClampedSkip(page: int): (skip: int)
    ensures skip >= 0 && skip % PerPage == 0
    ensures page >= 1 ==> skip == Skip(page)
    ensures page <= 1 ==> skip == 0
  {
    PerPage * ((if page < 1 then 1 else page) - 1)
  }

  /** The unclamped window starts before the first row for every page below 1. */
  lemma SkipBelowFirstPage(page: int)
    requires page < 1
    ensures Skip(page) < 0 && Skip(page) != ClampedSkip(page)
  {
  }

  /** A next page exists exactly when the next page's window starts inside the total. */
  lemma NextPageWindow(page: int, total: int)
    ensures HasNextPage(page, Some(Finite(total))) <==> Skip(page + 1) < total
  {
  }

  /** The request variables: `take`, `skip` and `where`. */
  datatype Variables<W> = Variables(take: int, skip: int, where: Option<Record<W>>)

  /** `Object.keys(where).length ? where : undefined`. */
  function WhereOrUndefined<W>(where: Record<W>): (o: Option<Record<W>>)
    ensures o.None? <==> |where| == 0
    ensures o.Some? ==> o.value == where
  {
    if |where| > 0 then Some(where) else None
  }

  function RequestVariables<W>(skip: int, where: Record<W>): (v: Variables<W>)
    ensures v.take == PerPage && v.skip == skip
    ensures v.where.None? <==> |where| == 0
  {
    Variables(PerPage, skip, WhereOrUndefined(where))
  }

  /** `count?.toString() || "0"`: the fallback is exactly what `toString` writes for 0. */
  function CountText(count: Option<int>): (s: string)
    ensures count.None? ==> s == "0"
    ensures s == IntToString(count.GetOr(0))
    ensures CanonicalInt(s)
  {
    assert IntToString(0) == [DigitChar(0)] == "0";
    if count.Some? then IntToString(count.value) else "0"
  }

  /** What `Number` reads back from a count text is the count, 0 when it was missing. */
  lemma CountTextNumber(count: Option<int>)
    ensures ToNumber(CountText(count)) == Finite(count.GetOr(0))
  {
    if count.Some? {
      ToNumberIntToString(count.value);
    } else {
      ToNumberIntToString(0);
      assert IntToString(0) == [DigitChar(0)] == "0";
    }
  }

  /** The state of a list page: its rows (undefined when the response had none), total text and loading flag. */
  datatype PageState<R> = PageState(items: Option<seq<R>>, totalCount: string, loading: bool)

  /** The outcome of the request: a decoded response, or a failure (network, JSON). */
  datatype Outcome<T> = Received(response: T) | Failed

  /** `setLoading(true)` at the start of every fetch. */
  function Started<R>(s: PageState<R>): (t: PageState<R>)
    ensures t.loading && t.items == s.items && t.totalCount == s.totalCount
  {
    s.(loading := true)
  }

  /** The success path: rows, `…_all?.toString() || "0"` and `setLoading(false)`. */
  function Loaded<R>(items: Option<seq<R>>, total: Option<int>): (t: PageState<R>)
    ensures !t.loading && t.items == items
    ensures ToNumber(t.totalCount) == Finite(total.GetOr(0))
    ensures total.None? ==> t.totalCount == "0"
    ensures total.Some? ==> t.totalCount == IntToString(total.value)
  {
    CountTextNumber(total);
    PageState(items, CountText(total), false)
  }

  /** The catch path of the blocks and transactions pages: no rows, the total is left as it was. */
  function FailedKeepingTotal<R>(s: PageState<R>): (t: PageState<R>)
    ensures !t.loading && t.items == Some([]) && t.totalCount == s.totalCount
  {
    PageState(Some([]), s.totalCount, false)
  }

  /** The catch path of the batches and settlements pages: no rows and a total of "0". */
  function FailedResettingTotal<R>(s: PageState<R>): (t: PageState<R>)
    ensures !t.loading && t.items == Some([]) && t.totalCount == "0"
    ensures ToNumber(t.totalCount) == Finite(0)
  {
    PageState(Some([]), "0", false)
  }
}
