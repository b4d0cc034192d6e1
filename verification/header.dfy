/**
 * The site header's navigation: which item is highlighted for the current
 * path, and when a click navigates.
 */
module Header {
  import opened Wrappers
  import opened Js

  datatype NavItem = NavItem(caption: string, href: string)

  /** `NAV_ITEMS`, in rendering order. */
  const NavItems: seq<NavItem> := [
    NavItem("Home", "/"),
    NavItem("Blocks", "/blocks"),
    NavItem("Transactions", "/transactions"),
    NavItem("Batches", "/batches"),
    NavItem("Settlements", "/settlements")
  ]

  /** `pathname === href || pathname.startsWith(href + "/")`. */
  predicate IsActive(pathname: string, href: string) {
    pathname == href || StartsWith(pathname, href + "/")
  }

  /** An active item's href is a prefix of the path, followed by its end or by `/`. */
  lemma ActivePrefix(pathname: string, href: string)
    ensures IsActive(pathname, href) ==>
              |href| <= |pathname| && pathname[..|href|] == href && (|pathname| == |href| || pathname[|href|] == '/')
  {
    if StartsWith(pathname, href + "/") {
      assert pathname[..|href| + 1][..|href|] == pathname[..|href|];
    }
  }

  /** `onClick`: the href pushed, unless it is already the current path. */
  function ClickTarget(pathname: string, href: string): (pushed: Option<string>)
    ensures pushed.None? <==> pathname == href
    ensures pushed.Some? ==> pushed.value == href
  {
    if pathname != href then Some(href) else None
  }

  /** Whether a click navigates or not, the path it leaves highlights the clicked item. */
  lemma ClickHighlightsItem(pathname: string, href: string)
    ensures IsActive(ClickTarget(pathname, href).GetOr(pathname), href)
  {
  }

  /** An active item fixes every character of the path up to its href's length. */
  lemma ActiveChar(pathname: string, href: string, k: nat)
    requires k < |href|
    ensures IsActive(pathname, href) ==> k < |pathname| && pathname[k] == href[k]
  {
    ActivePrefix(pathname, href);
    if IsActive(pathname, href) {
      assert pathname[..|href|][k] == pathname[k];
    }
  }

  /** No path highlights two items at once. */
  lemma AtMostOneActive(pathname: string, i: nat, j: nat)
    requires i < j < |NavItems|
    ensures !(IsActive(pathname, NavItems[i].href) && IsActive(pathname, NavItems[j].href))
  {
    var a, b := NavItems[i].href, NavItems[j].href;
    if i == 0 {
      // Home is active only for "/" itself or a path whose second character is '/'.
      ActivePrefix(pathname, a);
      ActiveChar(pathname, b, 1);
      assert |b| > 1 && b[1] != '/';
    } else {
      // The other hrefs part ways at their second or third character.
      var k := if i == 1 && j == 3 then 2 else 1;
      ActiveChar(pathname, a, k);
      ActiveChar(pathname, b, k);
      assert a[k] != b[k];
    }
  }
}
