/**
 * The generic data table behind every list page: row-click navigation by
 * `{field}` template, filter-form submission and defaults, and the fallbacks
 * for data the page has not supplied.
 */
module DataTable {
  import opened Wrappers
  import opened Js
  import opened Records
  import opened FilterSchema
  import opened FilterBuilder
  import opened Utils
  import opened QueryParams

  /** A character of the regular-expression class `\w`. */
  predicate IsWordChar(c: char) {
    'a' <= c <= 'z' || 'A' <= c <= 'Z' || '0' <= c <= '9' || c == '_'
  }

  /** The length of the run of `\w` characters that starts `s`. */
  function WordRun(s: string): (n: nat)
    ensures n <= |s|
    ensures forall i :: 0 <= i < n ==> IsWordChar(s[i])
    ensures n < |s| ==> !IsWordChar(s[n])
  {
    if s == [] || !IsWordChar(s[0]) then 0 else 1 + WordRun(s[1..])
  }

  /** A row as the table sees it: each field that is not null or undefined, as `String(value)`. */
  type Item = map<string, string>

  /** `value != null ? String(value) : ""`. */
  function FieldText(item: Item, key: string): string {
    if key in item then item[key] else ""
  }

  /**
   * `path.replace(/\{(\w+)\}/g, …)`: every `{word}` is replaced by the item's
   * field of that name; any other character, a lone `{` included, is kept.
   */
  function Substitute(path: string, item: Item): string
    decreases |path|
  {
    if path == [] then []
    else if path[0] == '{' && 0 < WordRun(path[1..]) && 1 + WordRun(path[1..]) < |path|
            && path[1 + WordRun(path[1..])] == '}' then
      var n := WordRun(path[1..]);
      FieldText(item, path[1..1 + n]) + Substitute(path[n + 2..], item)
    else [path[0]] + Substitute(path[1..], item)
  }

  /** A path without `{` is navigated to as written. */
  lemma {:induction false} SubstituteLiteral(path: string, item: Item)
    requires '{' !in path
    ensures Substitute(path, item) == path
    decreases |path|
  {
    if path != [] {
      SubstituteLiteral(path[1..], item);
      assert path == [path[0]] + path[1..];
    }
  }

  /** A literal prefix is copied and the placeholder after it becomes the field's text. */
  lemma {:induction false} SubstitutePlaceholder(literal: string, key: string, rest: string, item: Item)
    requires '{' !in literal
    requires |key| > 0 && forall i :: 0 <= i < |key| ==> IsWordChar(key[i])
    ensures Substitute(literal + "{" + key + "}" + rest, item) == literal + FieldText(item, key) + Substitute(rest, item)
    decreases |literal|
  {
    var tail := "{" + key + "}" + rest;
    if literal == [] {
      assert literal + "{" + key + "}" + rest == tail;
      SubstituteAtPlaceholder(key, rest, item);
    } else {
      assert literal + "{" + key + "}" + rest == [literal[0]] + (literal[1..] + "{" + key + "}" + rest);
      SubstituteOther(literal[0], literal[1..] + "{" + key + "}" + rest, item);
      SubstitutePlaceholder(literal[1..], key, rest, item);
    }
  }

  lemma SubstituteOther(c: char, s: string, item: Item)
    requires c != '{'
    ensures Substitute([c] + s, item) == [c] + Substitute(s, item)
  {
    assert ([c] + s)[1..] == s;
  }

  lemma SubstituteAtPlaceholder(key: string, rest: string, item: Item)
    requires |key| > 0 && forall i :: 0 <= i < |key| ==> IsWordChar(key[i])
    ensures Substitute("{" + key + "}" + rest, item) == FieldText(item, key) + Substitute(rest, item)
  {
    var path := "{" + key + "}" + rest;
    assert path[1..] == key + ("}" + rest);
    WordRunPrefix(key, "}" + rest);
    assert path[1..1 + |key|] == key;
    assert path[|key| + 2..] == rest;
  }

  lemma {:induction false} WordRunPrefix(word: string, rest: string)
    requires forall i :: 0 <= i < |word| ==> IsWordChar(word[i])
    requires rest != [] && !IsWordChar(rest[0])
    ensures WordRun(word + rest) == |word|
  {
    if word != [] {
      assert (word + rest)[1..] == word[1..] + rest;
      WordRunPrefix(word[1..], rest);
    } else {
      assert word + rest == rest;
    }
  }

  /** `handleRowClick`: the path pushed for a row, if the table has a navigation path. */
  function RowClick(navigationPath: Option<string>, item: Item): (pushed: Option<string>)
    ensures pushed.None? <==> navigationPath.None?
    ensures navigationPath.Some? && '{' !in navigationPath.value ==> pushed == navigationPath
  {
    if navigationPath.None? then None
    else
      var path := navigationPath.value;
      if '{' !in path then SubstituteLiteral(path, item); Some(Substitute(path, item))
      else Some(Substitute(path, item))
  }

  /** A navigation path ending in one placeholder opens the prefix followed by that field's text. */
  lemma RowClickPlaceholder(prefix: string, key: string, item: Item)
    requires '{' !in prefix
    requires |key| > 0 && forall i :: 0 <= i < |key| ==> IsWordChar(key[i])
    ensures RowClick(Some(prefix + "{" + key + "}"), item) == Some(prefix + FieldText(item, key))
  {
    var path := prefix + "{" + key + "}";
    assert path == prefix + "{" + key + "}" + "";
    assert '{' in path by {
      assert path[|prefix|] == '{';
    }
    SubstitutePlaceholder(prefix, key, "", item);
    assert Substitute("", item) == "";
    assert prefix + FieldText(item, key) + "" == prefix + FieldText(item, key);
  }

  /** A form value as submitted: a checkbox state becomes `"true"` or `"false"`. */
  function Serialized(v: FormValue): (s: Option<string>)
    ensures v.Unset? <==> s.None?
    ensures v.Text? ==> s == Some(v.s)
    ensures v.Flag? ==> s == Some(if v.b then "true" else "false")
  {
    match v
    case Unset => None
    case Text(s) => Some(s)
    case Flag(b) => Some(if b then "true" else "false")
  }

  function SerializeForm(formData: Record<FormValue>): (r: Filters)
    ensures Keys(r) == Keys(formData)
    ensures forall i :: 0 <= i < |r| ==> r[i].value == Serialized(formData[i].value)
  {
    if formData == [] then []
    else [Entry(formData[0].key, Serialized(formData[0].value))] + SerializeForm(formData[1..])
  }

  /** What a submit hands to the page: the new filters and the new page. */
  datatype Submission = Submission(filters: Filters, page: int)

  /** `handleSubmit`: the serialised form, then always page 1. */
  function HandleSubmit(formData: Record<FormValue>): (s: Submission)
    ensures s.page == 1
    ensures Keys(s.filters) == Keys(formData)
    ensures forall k :: Find(s.filters, k) == match Find(formData, k) { case None => None case Some(v) => Some(Serialized(v)) }
  {
    var filters := SerializeForm(formData);
    FindSerialized(formData);
    Submission(filters, 1)
  }

  lemma {:induction false} FindSerialized(formData: Record<FormValue>)
    ensures forall k :: Find(SerializeForm(formData), k) == match Find(formData, k) { case None => None case Some(v) => Some(Serialized(v)) }
  {
    if formData != [] {
      FindSerialized(formData[1..]);
    }
  }

  /** A checkbox submits a value the list keeps exactly when it is ticked. */
  lemma CheckboxKept(key: string, b: bool, allowed: Schema)
    requires key in allowed && allowed[key] == BooleanKind
    ensures IsValidFilter(key, Serialized(Flag(b)), allowed) <==> b
  {
  }

  /** `handleClearSubmit`: an empty submission, only when filter fields are configured. */
  function ClearSubmit(hasFilterFields: bool): (s: Option<Submission>)
    ensures s.Some? <==> hasFilterFields
    ensures s.Some? ==> s.value.filters == [] && s.value.page == 1
  {
    if hasFilterFields then Some(HandleSubmit([])) else None
  }

  /** The form's `defaultValues`: the filters' keys, null and `""` values made undefined. */
  function DefaultValues(filters: Option<Filters>): (d: Filters)
    ensures filters.None? ==> d == []
    ensures filters.Some? ==> Keys(d) == Keys(filters.value)
    ensures filters.Some? ==> forall i :: 0 <= i < |d| ==>
              d[i].value == if Skipped(filters.value[i].value) then None else filters.value[i].value
  {
    if filters.None? || |filters.value| == 0 then [] else Blanked(filters.value)
  }

  function Blanked(filters: Filters): (d: Filters)
    ensures Keys(d) == Keys(filters)
    ensures forall i :: 0 <= i < |d| ==> d[i].value == if Skipped(filters[i].value) then None else filters[i].value
  {
    if filters == [] then []
    else [Entry(filters[0].key, if Skipped(filters[0].value) then None else filters[0].value)] + Blanked(filters[1..])
  }

  /** What the table hands to the list: items default to none, the total to "0", the page to 0, loading to false. */
  datatype Shown<R> = Shown(items: seq<R>, totalCount: string, page: int, loading: bool)

  function ShownData<R>(items: Option<seq<R>>, totalCount: Option<string>, page: Option<int>, loading: Option<bool>): (s: Shown<R>)
    ensures items.None? ==> s.items == []
    ensures items.Some? ==> s.items == items.value
    ensures totalCount.None? ==> s.totalCount == "0"
    ensures totalCount.Some? ==> s.totalCount == totalCount.value
    ensures page.None? ==> s.page == 0
    ensures page.Some? ==> s.page == page.value
    ensures s.loading <==> loading == Some(true)
  {
    Shown(items.GetOr([]), totalCount.GetOr("0"), page.GetOr(0), loading.GetOr(false))
  }
}
